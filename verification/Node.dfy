/** The node itself: fields updated in place by loops, each method proved against NodeState. Sends go
    through an installed sender; every one of them happens in a state satisfying the invariant. */
module Nodes {
  import opened Bytes
  import opened Crypto
  import opened Protocol
  import opened Replay
  import opened Selection
  import opened NodeState
  import Coherence
  import opened Invariants
  import Promises
  import Runs

  class Node {
    const id: PeerId
    const env: Env
    const replayCache: ReplayCache
    const inputTracker: InputTracker

    var txStore: map<Hash, TxRecord>
    var valueStore: map<Hash, Value>
    var conflictSets: map<Hash, seq<Hash>>
    var selectedLineage: map<Hash, SelectedLineage>
    var finalityState: map<Hash, FinalityState>
    var peerObservations: map<Hash, map<PeerId, Int64>>
    var proofStore: map<Hash, Proofs>
    var peers: map<PeerId, bool>
    var sent: seq<SentMessage>
    var arrivalSeq: nat

    ghost function View(): State
      reads this, replayCache, inputTracker
    {
      State(txStore, valueStore, conflictSets, selectedLineage, finalityState, peerObservations, proofStore,
            replayCache.seen, inputTracker.consumed, peers, sent, arrivalSeq)
    }

    ghost predicate Valid()
      reads this, replayCache, inputTracker
    {
      Inv(env, View()) && MembersStored(View()) && replayCache.defaultTTL == REPLAY_TTL
    }

    constructor (id: PeerId, env: Env)
      ensures this.id == id && this.env == env && View() == NEW_NODE && Valid()
      ensures fresh(replayCache) && fresh(inputTracker)
    {
      this.id, this.env := id, env;
      replayCache := new ReplayCache(REPLAY_TTL);
      inputTracker := new InputTracker();
      txStore, valueStore, conflictSets, selectedLineage, finalityState := map[], map[], map[], map[], map[];
      peerObservations, proofStore, peers, sent, arrivalSeq := map[], map[], map[], [], 0;
      new;
      Runs.NewNodeInv(env);
    }

    // -------------------------------------------------------------------------------------
    // selection.go

    method ProofWeightOf(x: Hash) returns (weight: real)
      ensures weight == ProofWeight(ProofsOf(View(), x))
    {
      var proofs := Lookup(proofStore, x, map[]);
      var left := proofs;
      weight := 0.0;
      while left != map[]
        invariant weight + ProofWeight(left) == ProofWeight(proofs)
        decreases |left|
      {
        var p :| p in left;
        ProofWeightRemove(left, p);
        RemovedSize(left, p);
        if left[p].seen && !left[p].conflict {
          weight := weight + DistanceWeight(left[p].distance);
        }
        left := left - {p};
      }
    }

    method ConflictCleanliness(input: Hash, x: Hash) returns (cleanliness: real)
      requires ConflictSet(View(), input) != []
      ensures cleanliness == Cleanliness(|ConflictSet(View(), input)|, ProofsOf(View(), x))
    {
      hide Cleanliness;
      var proofs := Lookup(proofStore, x, map[]);
      var conflictSignals, maxSignals := 0, |conflictSets[input]| - 1;
      if |conflictSets[input]| > 1 {
        conflictSignals := conflictSignals + (|conflictSets[input]| - 1);
      }
      var todo := proofs.Keys;
      ghost var rivals: nat := |conflictSets[input]|;
      assert proofs.Keys - todo == {} && Conflicting(proofs) - todo == {};
      while todo != {}
        invariant todo <= proofs.Keys
        invariant maxSignals == rivals - 1 + |proofs.Keys - todo|
        invariant conflictSignals == rivals - 1 + |Conflicting(proofs) - todo|
        decreases todo
      {
        var p :| p in todo;
        OneMoreDone(proofs.Keys, todo, p);
        OneMoreDone(Conflicting(proofs), todo, p);
        maxSignals := maxSignals + 1;
        if proofs[p].conflict {
          conflictSignals := conflictSignals + 1;
        }
        todo := todo - {p};
      }
      AllDone(proofs.Keys, todo);
      AllDone(Conflicting(proofs), todo);
      CleanlinessOf(rivals, proofs, conflictSignals, maxSignals);
      cleanliness := 1.0 - conflictSignals as real / (maxSignals as real + 1.0);
    }

    predicate Stored(xs: seq<Hash>)
      reads this
    {
      forall x <- xs :: x in txStore
    }

    predicate RanksBefore(x: Hash, y: Hash)
      requires x in txStore && y in txStore
      reads this
    {
      txStore[x].arrivalSeq < txStore[y].arrivalSeq || (txStore[x].arrivalSeq == txStore[y].arrivalSeq && x < y)
    }

    method InsertRanked(x: Hash, ranked: seq<Hash>) returns (r: seq<Hash>)
      requires x in txStore && Stored(ranked)
      ensures Stored(r)
      ensures var st := old(View());
              Candidates(st, r) == InsertByArrival(CandidateOf(st, x), Candidates(st, ranked))
    {
      hide InsertByArrival;
      var i := 0;
      while i < |ranked| && RanksBefore(ranked[i], x)
        invariant i <= |ranked| && forall j | 0 <= j < i :: RanksBefore(ranked[j], x)
      {
        i := i + 1;
      }
      r := ranked[..i] + [x] + ranked[i..];
      InsertedAt(CandidateOf(View(), x), Candidates(View(), ranked), i);
      assert Candidates(View(), r) == Candidates(View(), ranked)[..i] + [CandidateOf(View(), x)] + Candidates(View(), ranked)[i..] by {
        hide CandidateOf;
      }
    }

    method RankByArrivalSeq(xs: seq<Hash>) returns (ranked: seq<Hash>)
      requires Stored(xs)
      ensures Stored(ranked)
      ensures |ranked| == |xs| && Candidates(View(), ranked) == RankByArrival(Candidates(View(), xs))
    {
      hide CandidateOf, RankByArrival, InsertByArrival, Candidates, RankedFrom;
      ranked := [];
      ghost var st := View();
      ghost var cs := Candidates(st, xs);
      CandidatesEnds(st, xs);
      RankEnds(cs);
      for i := |xs| downto 0
        invariant Stored(ranked) && Candidates(st, ranked) == RankedFrom(cs, i)
      {
        RankStep(cs, i);
        ranked := InsertRanked(xs[i], ranked);
      }
      CandidatesEnds(st, ranked);
    }

    method ScoreTransfer(now: Int64, input: Hash, ranked: seq<Hash>, rank: nat) returns (b: Breakdown)
      requires rank < |ranked| == |ConflictSet(View(), input)| && Stored(ranked)
      ensures b == ScoreTx(env.log, now, Candidates(View(), ranked), rank)
    {
      var x := ranked[rank];
      var firstSeen := 1.0 / (1.0 + rank as real);
      var propagation := env.log(|Lookup(peerObservations, x, map[])|);
      var timeStability := TimeStability(now, txStore[x].firstSeen);
      var weight := ProofWeightOf(x);
      var neighborhood := weight / (weight + 1.0);
      var cleanliness := ConflictCleanliness(input, x);
      var score := 0.35 * firstSeen + 0.20 * propagation + 0.20 * timeStability + 0.20 * neighborhood + 0.05 * cleanliness;
      b := Breakdown(x, score, firstSeen, propagation, timeStability, neighborhood, cleanliness);
    }

    method SelectBestOf(now: Int64, input: Hash, xs: seq<Hash>) returns (best: Breakdown)
      requires xs != [] && xs == ConflictSet(View(), input) && Stored(xs)
      ensures best == SelectBest(env.log, now, Candidates(View(), xs))
    {
      hide ScoreTx;
      var ranked := RankByArrivalSeq(xs);
      best := ScoreTransfer(now, input, ranked, 0);
      for rank := 1 to |ranked|
        invariant best == BestOfFirst(env.log, now, Candidates(View(), ranked), rank)
      {
        var candidate := ScoreTransfer(now, input, ranked, rank);
        if BetterScore(candidate, best) {
          best := candidate;
        }
      }
    }

    method RecomputeSelectionForInput(now: Int64, input: Hash)
      requires MembersStored(View())
      modifies this`selectedLineage, this`finalityState
      ensures View() == RecomputeInput(env, now, old(View()), input)
    {
      hide FinalityOf, SelectBest, UpdateFinality;
      ghost var before := View();
      var xs := Lookup(conflictSets, input, []);
      if xs == [] {
        selectedLineage := selectedLineage - {input};
        return;
      }
      assert Stored(xs) by {
        assert input in before.conflictSets && xs == before.conflictSets[input];
      }
      var best := SelectBestOf(now, input, xs);
      selectedLineage := selectedLineage[input := SelectedLineage(best.txID, best.score, now)];
      UpdateFinalityForMembers(now, xs);
    }

    method UpdateFinalityForMembers(now: Int64, xs: seq<Hash>)
      modifies this`finalityState
      ensures View() == UpdateFinalities(env, now, old(View()), xs)
    {
      hide UpdateFinality;
      for i := 0 to |xs|
        invariant View() == UpdateFinalities(env, now, old(View()), xs[..i])
      {
        assert xs[..i + 1][..i] == xs[..i];
        UpdateFinalityForTransfer(now, xs[i]);
      }
      assert xs[..|xs|] == xs;
    }

    method RecomputeSelectionForTransfer(now: Int64, x: Hash)
      requires MembersStored(View())
      modifies this`selectedLineage, this`finalityState
      ensures View() == RecomputeTransfer(env, now, old(View()), x)
    {
      hide RecomputeInput, UpdateFinality, MembersStored;
      if x !in txStore {
        return;
      }
      ghost var before := View();
      var inputs := txStore[x].tx.inputs;
      for i := 0 to |inputs|
        invariant MembersStored(View())
        invariant View() == RecomputeInputs(env, now, before, inputs[..i])
      {
        assert inputs[..i + 1][..i] == inputs[..i];
        RecomputeSelectionForInput(now, inputs[i]);
        Coherence.SameMembersStored(before, View());
      }
      assert inputs[..|inputs|] == inputs;
      UpdateFinalityForTransfer(now, x);
    }

    // -------------------------------------------------------------------------------------
    // finality.go

    method ComputeConfidence(now: Int64, x: Hash) returns (confidence: real)
      requires x in txStore
      ensures confidence == Confidence(env.log, now, CandidateOf(View(), x))
    {
      var propagation := WeightLogCount(env.log, |Lookup(peerObservations, x, map[])|);
      var timeStability := TimeStability(now, txStore[x].firstSeen);
      var weight := ProofWeightOf(x);
      var neighborhood := weight / (weight + 1.0);
      confidence := 0.30 * propagation + 0.35 * timeStability + 0.35 * neighborhood;
    }

    method TransferAmountOf(outputs: seq<Value>) returns (total: UInt64)
      ensures total == TransferAmount(outputs)
    {
      total := 0;
      for i := 0 to |outputs|
        invariant total == TransferAmount(outputs[..i])
      {
        assert outputs[..i + 1][..i] == outputs[..i];
        total := (total + outputs[i].amount) % TWO_64;
      }
      assert outputs[..|outputs|] == outputs;
    }

    method UpdateFinalityForTransfer(now: Int64, x: Hash)
      modifies this`finalityState
      ensures View() == UpdateFinality(env, now, old(View()), x)
    {
      hide Confidence, TransferAmount, Threshold;
      if x !in txStore {
        return;
      }
      var tx := txStore[x].tx;
      var selected, score, i := true, 0.0, 0;
      while i < |tx.inputs|
        invariant i <= |tx.inputs| && selected
        invariant ScanInputs(selectedLineage, x, tx.inputs, 0.0) == ScanInputs(selectedLineage, x, tx.inputs[i..], score)
      {
        if tx.inputs[i] !in selectedLineage || selectedLineage[tx.inputs[i]].txID != x {
          selected := false;
          break;
        }
        score := selectedLineage[tx.inputs[i]].score;
        assert tx.inputs[i..][1..] == tx.inputs[i + 1..];
        i := i + 1;
      }
      assert (selected, score) == ScanInputs(selectedLineage, x, tx.inputs, 0.0);
      var state := FinalityState(score, 0.0, PENDING);
      if selected {
        var confidence := ComputeConfidence(now, x);
        var amount := TransferAmountOf(tx.outputs);
        state := state.(confidence := confidence, status := if confidence >= Threshold(amount) then FINAL else SELECTED);
      }
      finalityState := finalityState[x := state];
    }

    // -------------------------------------------------------------------------------------
    // store.go

    method ObserveFrom(now: Int64, x: Hash, from: PeerId)
      modifies this`peerObservations, this`txStore
      ensures View() == ObservePeer(now, old(View()), x, from)
    {
      if from == [] {
        return;
      }
      var observed := Lookup(peerObservations, x, map[])[from := now];
      peerObservations := peerObservations[x := observed];
      if x in txStore {
        var peers := txStore[x].peers[from := observed[from]];
        txStore := txStore[x := txStore[x].(peers := peers, seenCount := |peers|)];
      }
    }

    method AddConflictMembership(x: Hash, inputs: seq<Hash>)
      modifies this`conflictSets
      ensures View() == old(View()).(conflictSets := AddMembership(old(View()).conflictSets, x, inputs))
    {
      ghost var before := View();
      for i := 0 to |inputs|
        invariant View() == before.(conflictSets := AddMembership(before.conflictSets, x, inputs[..i]))
      {
        assert inputs[..i + 1][..i] == inputs[..i];
        var xs := Lookup(conflictSets, inputs[i], []);
        if x !in xs {
          conflictSets := conflictSets[inputs[i] := xs + [x]];
        }
      }
      assert inputs[..|inputs|] == inputs;
    }

    method AddOutputs(outputs: seq<Value>)
      modifies this`valueStore
      ensures View() == old(View()).(valueStore := StoreOutputs(old(View()).valueStore, outputs))
    {
      ghost var before := View();
      for i := 0 to |outputs|
        invariant View() == before.(valueStore := StoreOutputs(before.valueStore, outputs[..i]))
      {
        assert outputs[..i + 1][..i] == outputs[..i];
        valueStore := valueStore[outputs[i].id := outputs[i]];
      }
      assert outputs[..|outputs|] == outputs;
    }

    method NormalizeTransfer(t: Transfer) returns (n: Transfer)
      ensures n == Normalize(env.hash, t)
    {
      var outputs: seq<Value> := [];
      for i := 0 to |t.outputs|
        invariant outputs == WithIDs(env.hash, t.outputs[..i])
      {
        outputs := outputs + [t.outputs[i].(id := ComputeValueID(env.hash, t.outputs[i]))];
        assert t.outputs[..i + 1][..i] == t.outputs[..i];
      }
      assert t.outputs[..|t.outputs|] == t.outputs;
      n := t.(outputs := outputs);
      n := n.(id := ComputeTransferID(env.hash, n));
    }

    method UpsertTransfer(now: Int64, t: Transfer, canonical: Bytes, from: PeerId) returns (x: Hash, inserted: bool)
      modifies this`txStore, this`valueStore, this`conflictSets, this`peerObservations, this`arrivalSeq
      ensures (View(), x, inserted) == Upsert(env, now, old(View()), t, canonical, from)
    {
      hide Normalize, ObservePeer, StoreOutputs, AddMembership;
      var tx := NormalizeTransfer(t);
      x := tx.id;
      if x in txStore {
        ObserveFrom(now, x, from);
        return x, false;
      }
      arrivalSeq := arrivalSeq + 1;
      txStore := txStore[x := TxRecord(tx, canonical, now, arrivalSeq, 0, map[])];
      AddOutputs(tx.outputs);
      ObserveFrom(now, x, from);
      AddConflictMembership(x, tx.inputs);
      inserted := true;
    }

    method PutProof(x: Hash, r: ProofRecord)
      modifies this`proofStore
      ensures View() == UpdateProof(old(View()), x, r)
    {
      proofStore := proofStore[x := Lookup(proofStore, x, map[])[r.peer := r]];
    }

    // -------------------------------------------------------------------------------------
    // handlers.go: validation

    method ResolveSignerOf(inputs: seq<Hash>) returns (r: Result<Bytes, NodeError>)
      ensures r == ResolveSigner(valueStore, inputs, [])
    {
      var owner: Bytes := [];
      for i := 0 to |inputs|
        invariant ResolveSigner(valueStore, inputs, []) == ResolveSigner(valueStore, inputs[i..], owner)
      {
        assert inputs[i..][1..] == inputs[i + 1..];
        if inputs[i] !in valueStore {
          return Err(UnknownInput);
        }
        if owner == [] {
          owner := valueStore[inputs[i]].owner;
          continue;
        }
        if owner != valueStore[inputs[i]].owner {
          return Err(DifferentOwners);
        }
      }
      r := Ok(owner);
    }

    method ValidateTransfer(now: Int64, tx: Transfer) returns (out: Outcome)
      ensures out == Validate(env, now, valueStore, tx)
    {
      hide ResolveSigner, EncodeTransfer;
      if tx.inputs == [] {
        return Failed(NoInputs);
      }
      if tx.outputs == [] {
        return Failed(NoOutputs);
      }
      var seenInputs: set<Hash> := {};
      for i := 0 to |tx.inputs|
        invariant seenInputs == Elements(tx.inputs[..i]) && NoDuplicates(tx.inputs[..i])
      {
        if tx.inputs[i] in seenInputs {
          assert !NoDuplicates(tx.inputs) by {
            var j :| 0 <= j < i && tx.inputs[..i][j] == tx.inputs[i];
            assert tx.inputs[j] == tx.inputs[i];
          }
          return Failed(InputConsumed);
        }
        seenInputs := seenInputs + {tx.inputs[i]};
      }
      assert tx.inputs[..|tx.inputs|] == tx.inputs;
      for i := 0 to |tx.outputs|
        invariant forall v <- tx.outputs[..i] :: !Expires(v, now)
      {
        if Expires(tx.outputs[i], now) {
          return Failed(OutputExpired);
        }
      }
      assert tx.outputs[..|tx.outputs|] == tx.outputs;
      var owner := ResolveSignerOf(tx.inputs);
      if owner.Err? {
        return Failed(owner.error);
      }
      if |owner.value| != PUBLIC_KEY_SIZE {
        return Failed(BadOwnerKey);
      }
      if !env.verify(owner.value, EncodeTransfer(tx), tx.sig) {
        return Failed(BadSignature);
      }
      out := Nil;
    }

    method TransferHasConflict(x: Hash) returns (conflict: bool)
      ensures conflict == HasConflict(View(), x)
    {
      if x !in txStore {
        return false;
      }
      var inputs := txStore[x].tx.inputs;
      for i := 0 to |inputs|
        invariant forall j <- inputs[..i] :: |ConflictSet(View(), j)| <= 1
      {
        if |Lookup(conflictSets, inputs[i], [])| > 1 {
          assert |ConflictSet(View(), inputs[i])| > 1 && inputs[i] in txStore[x].tx.inputs;
          return true;
        }
      }
      assert inputs[..|inputs|] == inputs;
      conflict := false;
    }

    // -------------------------------------------------------------------------------------
    // node.go: sending

    /** At every send, in the middle of a handler, both caches are right. */
    method Send(tick: Tick, to: PeerId, m: Message) returns (out: Outcome)
      requires Valid()
      modifies this`sent
      ensures Promises.SelectionCoherent(env, old(View())) && Promises.FinalityExclusive(old(View()))
      ensures (View(), out) == SendTo(tick, old(View()), to, m) && Valid()
    {
      hide Inv, MembersStored, Promises.SelectionCoherent, Promises.FinalityExclusive;
      ghost var before := View();
      Promises.InvCoherent(env, before);
      Promises.InvExclusive(env, before);
      sent := sent + [SentMessage(to, m)];
      SentKeepsValid(before, View());
      out := if tick.up(to) then Nil else Failed(SendFailed);
    }

    lemma SentKeepsValid(st: State, st': State)
      requires Inv(env, st) && SameCore(st, st')
      ensures Inv(env, st') && MembersStored(st')
    {
      hide Inv, MembersStored;
      SameCoreKeepsInv(env, st, st');
      Runs.InvMembersStored(env, st');
    }

    method PeerIDsExcept(skip: PeerId) returns (ids: seq<PeerId>)
      ensures ids == PeersExcept(View(), skip)
    {
      ids := [];
      var todo := peers.Keys - {skip};
      ghost var all := todo;
      while todo != {}
        invariant todo <= all && Sorted(ids) && Elements(ids) == all - todo
        decreases todo
      {
        var p :| p in todo;
        ids := InsertPeer(p, ids);
        todo := todo - {p};
      }
      assert all - todo == all;
      assert forall p :: p in ids <==> p in Elements(ids);
      SortedUnique(ids, Ordered(all));
    }

    method AnnounceTo(tick: Tick, tos: seq<PeerId>, ttl: Int64, x: Hash) returns (out: Outcome)
      requires Valid()
      modifies this`sent
      ensures (View(), out) == Announce(tick, old(View()), tos, ttl, x) && Valid()
    {
      hide Inv, MembersStored;
      for i := 0 to |tos|
        invariant Valid()
        invariant Announce(tick, old(View()), tos, ttl, x) == Announce(tick, View(), tos[i..], ttl, x)
      {
        assert tos[i..][1..] == tos[i + 1..];
        var failure := Send(tick, tos[i], NewInv(tick.ids(|sent|), tick.now, ttl, x));
        if failure.Failed? {
          return failure;
        }
      }
      out := Nil;
    }

    /** The stores and caches after a valid transfer, before anything is sent. */
    method StoreTransfer(now: Int64, tx: Transfer, canonical: Bytes, from: PeerId) returns (x: Hash, inserted: bool)
      requires Valid() && tx == Normalize(env.hash, tx) && canonical == EncodeTransfer(tx)
      requires Validate(env, now, valueStore, tx) == Nil
      modifies this`txStore, this`valueStore, this`conflictSets, this`peerObservations, this`arrivalSeq
      modifies this`selectedLineage, this`finalityState
      ensures (View(), x, inserted) == Store(env, now, old(View()), tx, canonical, from) && Valid()
    {
      hide Inv, MembersStored, Upsert, RecomputeTransfer, Validate, Normalize, EncodeTransfer;
      ghost var before := View();
      Runs.StoreKeepsInv(env, now, before, tx, from);
      UpsertKeepsMembersStored(env, now, before, tx, canonical, from);
      x, inserted := UpsertTransfer(now, tx, canonical, from);
      RecomputeSelectionForTransfer(now, x);
      Runs.InvMembersStored(env, View());
    }

    // -------------------------------------------------------------------------------------
    // handlers.go: messages

    method HandleINV(tick: Tick, from: PeerId, m: Message) returns (out: Outcome)
      requires Valid()
      modifies this`sent
      ensures (View(), out) == HandleInv(tick, old(View()), from, m) && Valid()
    {
      hide Inv, MembersStored, DecodeHashPayload;
      var decoded := DecodeHashPayload(m.payload);
      if decoded.Err? {
        return Failed(Decoding(decoded.error));
      }
      if decoded.value in txStore {
        return Nil;
      }
      out := Send(tick, from, NewGet(tick.ids(|sent|), tick.now, m.ttl, decoded.value));
    }

    method HandleGET(tick: Tick, from: PeerId, m: Message) returns (out: Outcome)
      requires Valid()
      modifies this`sent
      ensures (View(), out) == HandleGet(tick, old(View()), from, m) && Valid()
    {
      hide Inv, MembersStored, DecodeHashPayload, NewTx;
      var decoded := DecodeHashPayload(m.payload);
      if decoded.Err? {
        return Failed(Decoding(decoded.error));
      }
      if decoded.value !in txStore {
        return Nil;
      }
      out := Send(tick, from, NewTx(tick.ids(|sent|), tick.now, m.ttl, txStore[decoded.value].tx));
    }

    method HandleTX(tick: Tick, from: PeerId, m: Message) returns (out: Outcome)
      requires Valid()
      modifies this
      ensures (View(), out) == HandleTx(env, tick, old(View()), from, m) && Valid()
      ensures unchanged(replayCache) && unchanged(inputTracker)
    {
      hide Inv, MembersStored, Validate, Normalize, Store, DecodeTxPayload, DecodeTransfer, EncodeTransfer, Announce;
      var payload := DecodeTxPayload(m.payload);
      if payload.Err? {
        return Failed(Decoding(payload.error));
      }
      var decoded := DecodeTransferBytes(env.hash, payload.value.transferBytes);
      if decoded.Err? {
        return Failed(Decoding(decoded.error));
      }
      var tx := NormalizeTransfer(decoded.value.(sig := payload.value.signature));
      assert DecodedTransfer(env, m.payload) == Ok((tx, payload.value.transferBytes));
      var verdict := ValidateTransfer(tick.now, tx);
      if verdict.Failed? {
        return verdict;
      }
      Runs.DecodedTransferFacts(env, m.payload);
      var x, inserted := StoreTransfer(tick.now, tx, payload.value.transferBytes, from);
      if !inserted {
        return Nil;
      }
      var ids := PeerIDsExcept(from);
      out := AnnounceTo(tick, ids, m.ttl, x);
    }

    method HandleProofREQ(tick: Tick, from: PeerId, m: Message) returns (out: Outcome)
      requires Valid()
      modifies this`sent
      ensures (View(), out) == HandleProofRequest(tick, old(View()), from, m) && Valid()
    {
      hide Inv, MembersStored, DecodeHashPayload, HasConflict;
      var decoded := DecodeHashPayload(m.payload);
      if decoded.Err? {
        return Failed(Decoding(decoded.error));
      }
      var x := decoded.value;
      var payload := ProofPayload(x, false, 0, false, 1);
      if x in txStore {
        var conflict := TransferHasConflict(x);
        payload := payload.(seen := true, seenTime := txStore[x].firstSeen, conflict := conflict);
      }
      out := Send(tick, from, NewProofResponse(tick.ids(|sent|), tick.now, m.ttl, payload));
    }

    method HandleProofRESP(tick: Tick, from: PeerId, m: Message) returns (out: Outcome)
      requires Valid()
      modifies this`proofStore, this`selectedLineage, this`finalityState
      ensures (View(), out) == HandleProofResponse(env, tick, old(View()), from, m) && Valid()
    {
      hide Inv, MembersStored, DecodeProofPayload, UpdateProof, RecomputeTransfer;
      var decoded := DecodeProofPayload(m.payload);
      if decoded.Err? {
        return Failed(Decoding(decoded.error));
      }
      var p := decoded.value;
      var r := ProofRecord(from, p.seen, p.seenTime, p.conflict, p.distance);
      ProofKeepsInv(env, tick.now, View(), p.target, r);
      PutProof(p.target, r);
      if p.target in txStore {
        RecomputeSelectionForTransfer(tick.now, p.target);
      } else {
        RecomputeUnknown(env, tick.now, View(), p.target);
      }
      Runs.InvMembersStored(env, View());
      out := Nil;
    }

    method Dispatch(tick: Tick, from: PeerId, m: Message) returns (out: Outcome)
      requires Valid()
      modifies this
      ensures (View(), out) == Handle(env, tick, old(View()), from, m) && Valid()
      ensures unchanged(replayCache) && unchanged(inputTracker)
    {
      hide Inv, MembersStored, HandleInv, HandleGet, HandleTx, HandleProofRequest, HandleProofResponse;
      if m.typ == INV {
        out := HandleINV(tick, from, m);
      } else if m.typ == GET {
        out := HandleGET(tick, from, m);
      } else if m.typ == TX {
        out := HandleTX(tick, from, m);
      } else if m.typ == PROOF_REQ {
        out := HandleProofREQ(tick, from, m);
      } else if m.typ == PROOF_RESP {
        out := HandleProofRESP(tick, from, m);
      } else if m.typ == ACK || m.typ == ERROR {
        out := Nil;
      } else {
        out := Failed(UnsupportedType);
      }
    }

    /** The replay check: an expired or unknown message ID is marked and let through. */
    method Admit(tick: Tick, id: MessageId) returns (admitted: bool)
      requires Valid()
      modifies replayCache
      ensures Valid() && (admitted <==> id !in Pruned(old(View()).seen, tick.now))
      ensures View() == if admitted then Mark(tick, old(View()), id) else old(View()).(seen := Pruned(old(View()).seen, tick.now))
    {
      hide Inv, MembersStored, Pruned;
      ghost var before := View();
      replayCache.PruneExpired(tick.now);
      SentKeepsValid(before, View());
      if replayCache.IsSeen(id) {
        return false;
      }
      replayCache.MarkSeen(tick.cacheNow, id);
      SentKeepsValid(before, View());
      admitted := true;
    }

    method OnMessage(tick: Tick, from: PeerId, m: Message) returns (out: Outcome)
      requires Valid()
      modifies this, replayCache
      ensures (View(), out) == NodeState.OnMessage(env, tick, old(View()), from, m) && Valid()
      ensures unchanged(inputTracker)
    {
      hide Inv, MembersStored, Handle, Pruned, Mark;
      var admitted := Admit(tick, m.messageId);
      if !admitted {
        return Nil;
      }
      out := Dispatch(tick, from, m);
    }

    method AcceptLocalTransfer(tick: Tick, t: Transfer) returns (out: Outcome)
      requires Valid()
      modifies this, inputTracker
      ensures (View(), out) == AcceptLocal(env, tick, old(View()), t) && Valid()
      ensures unchanged(replayCache)
    {
      hide Inv, MembersStored, Validate, Normalize, Store, EncodeTransfer, Announce;
      ghost var before := View();
      var tx := NormalizeTransfer(t);
      EncodingIgnoresIDs(env.hash, t);
      var verdict := ValidateTransfer(tick.now, tx);
      if verdict.Failed? {
        return verdict;
      }
      var consumable := inputTracker.ConsumeInputs(tx.inputs);
      SentKeepsValid(before, View());
      if !consumable {
        return Failed(InputConsumed);
      }
      var canonical := EncodeTransfer(tx);
      var x, _ := StoreTransfer(tick.now, tx, canonical, []);
      var ids := PeerIDsExcept([]);
      out := AnnounceTo(tick, ids, LOCAL_TTL, x);
    }

    method SeedValue(v: Value)
      requires Valid()
      modifies this`valueStore
      ensures View() == NodeState.SeedValue(env, old(View()), v) && Valid()
    {
      hide Inv, MembersStored, WithValueID;
      Runs.SeedKeepsInv(env, View(), v);
      var value := WithValueID(env.hash, v);
      valueStore := valueStore[value.id := value];
      Runs.InvMembersStored(env, View());
    }

    method AddPeer(p: PeerId)
      requires Valid()
      modifies this`peers
      ensures View() == NodeState.AddPeer(old(View()), p) && Valid()
    {
      hide Inv, MembersStored;
      ghost var before := View();
      peers := peers[p := true];
      SentKeepsValid(before, View());
    }

    method AddPeerID(p: PeerId)
      requires Valid()
      modifies this`peers
      ensures View() == NodeState.AddPeerID(old(View()), p) && Valid()
    {
      hide Inv, MembersStored;
      if p in peers {
        return;
      }
      ghost var before := View();
      peers := peers[p := false];
      SentKeepsValid(before, View());
    }
  }

  // ---------------------------------------------------------------------------------------
  // Loops over sets and sequences

  lemma OneMoreDone<T>(all: set<T>, todo: set<T>, x: T)
    requires x in todo
    ensures |all - (todo - {x})| == |all - todo| + if x in all then 1 else 0
  {
    assert all - (todo - {x}) == if x in all then (all - todo) + {x} else all - todo;
  }

  lemma AllDone<T>(all: set<T>, todo: set<T>)
    requires todo == {}
    ensures |all - todo| == |all|
  {
    assert all - todo == all;
  }

  lemma CleanlinessOf(rivals: nat, proofs: Proofs, conflictSignals: nat, maxSignals: nat)
    requires rivals > 0
    requires conflictSignals == rivals - 1 + |Conflicting(proofs)| && maxSignals == rivals - 1 + |proofs.Keys|
    ensures Cleanliness(rivals, proofs) == 1.0 - conflictSignals as real / (maxSignals as real + 1.0)
  {
    assert |proofs.Keys| == |proofs|;
  }

  lemma CandidatesEnds(st: State, xs: seq<Hash>)
    requires forall x <- xs :: x in st.txStore
    ensures |Candidates(st, xs)| == |xs| && Candidates(st, []) == []
    ensures forall i | 0 <= i < |xs| :: Candidates(st, xs)[i] == CandidateOf(st, xs[i])
  {}

  lemma {:induction false} InsertedAt(c: Candidate, s: seq<Candidate>, i: nat)
    requires i <= |s| && forall j | 0 <= j < i :: ArrivesBefore(s[j], c)
    requires i < |s| ==> !ArrivesBefore(s[i], c)
    ensures InsertByArrival(c, s) == s[..i] + [c] + s[i..]
    decreases i
  {
    if i > 0 {
      InsertedAt(c, s[1..], i - 1);
      assert s[..i] == [s[0]] + s[1..][..i - 1] && s[i..] == s[1..][i - 1..];
    }
  }

  ghost function RankedFrom(s: seq<Candidate>, i: nat): seq<Candidate>
    requires i <= |s|
  {
    RankByArrival(s[i..])
  }

  lemma RankStep(s: seq<Candidate>, i: nat)
    requires i < |s|
    ensures RankedFrom(s, i) == InsertByArrival(s[i], RankedFrom(s, i + 1))
  {
    assert s[i..] == [s[i]] + s[i + 1..];
  }

  lemma RankEnds(s: seq<Candidate>)
    ensures RankedFrom(s, |s|) == [] && RankedFrom(s, 0) == RankByArrival(s) && |RankByArrival(s)| == |s|
  {
    assert s[0..] == s;
    RankedSize(s);
  }

  // ---------------------------------------------------------------------------------------
  // Sorting peer IDs

  predicate Sorted(s: seq<PeerId>) {
    forall i, j | 0 <= i < j < |s| :: LexLess(s[i], s[j])
  }

  method InsertPeer(p: PeerId, s: seq<PeerId>) returns (r: seq<PeerId>)
    requires Sorted(s) && p !in s
    ensures Sorted(r) && Elements(r) == Elements(s) + {p}
  {
    var i := 0;
    while i < |s| && LexLess(s[i], p)
      invariant i <= |s| && forall j | 0 <= j < i :: LexLess(s[j], p)
    {
      i := i + 1;
    }
    r := s[..i] + [p] + s[i..];
    forall j | i <= j < |s| ensures LexLess(p, s[j]) {
      LexTotal(p, s[i]);
      if j > i {
        LexTransitive(p, s[i], s[j]);
      }
    }
  }

  lemma HeadIn<T>(s: seq<T>)
    requires s != []
    ensures s[0] in s
  {}

  lemma {:induction false} SortedUnique(a: seq<PeerId>, b: seq<PeerId>)
    requires Sorted(a) && Sorted(b) && forall p :: p in a <==> p in b
    ensures a == b
  {
    if a == [] {
      if b != [] {
        HeadIn(b);
        assert false;
      }
    } else {
      assert a[0] in a && a[0] in b && b != [];
      assert b[0] in b;
      LexIrreflexive(a[0]);
      assert a[0] == b[0] by {
        if a[0] != b[0] {
          LexTransitive(a[0], b[0], a[0]);
        }
      }
      forall p ensures p in a[1..] <==> p in b[1..] {
        assert p in a[1..] <==> p in a && p != a[0] by {
          TailOfSorted(a, p);
        }
        assert p in b[1..] <==> p in b && p != b[0] by {
          TailOfSorted(b, p);
        }
      }
      SortedUnique(a[1..], b[1..]);
      assert a == [a[0]] + a[1..] && b == [b[0]] + b[1..];
    }
  }

  lemma TailOfSorted(a: seq<PeerId>, p: PeerId)
    requires Sorted(a) && a != []
    ensures p in a[1..] <==> p in a && p != a[0]
  {
    LexIrreflexive(a[0]);
    if p in a[1..] {
      var i :| 0 <= i < |a[1..]| && a[1..][i] == p;
      assert LexLess(a[0], a[i + 1]);
    }
  }
}
