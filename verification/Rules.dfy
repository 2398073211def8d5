/** The rules of validation and of finality, in the numbers and comparisons of the code. */
module Rules {
  import opened Bytes
  import opened Crypto
  import opened Protocol
  import opened Replay
  import opened Selection
  import opened NodeState
  import opened Coherence
  import opened Invariants
  import opened Runs
  import opened Promises

  // ---------------------------------------------------------------------------------------
  // Validation

  /** The first `n` inputs are known, and once one has an owner all later ones have the same. */
  predicate Agreeing(values: map<Hash, Value>, inputs: seq<Hash>, n: nat)
    requires n <= |inputs|
  {
    && (forall j | 0 <= j < n :: inputs[j] in values)
    && (forall i, j | 0 <= i < j < n :: values[inputs[i]].owner == [] || values[inputs[j]].owner == values[inputs[i]].owner)
  }

  predicate AgreeingWith(values: map<Hash, Value>, inputs: seq<Hash>, n: nat, owner: Bytes)
    requires n <= |inputs|
  {
    Agreeing(values, inputs, n) && (owner != [] ==> forall j | 0 <= j < n :: values[inputs[j]].owner == owner)
  }

  /** resolveSigner stops at the first input that is unknown or belongs to someone else; past all of
      them, the signer is the owner of the last input. */
  lemma {:induction false} SignerStops(values: map<Hash, Value>, inputs: seq<Hash>, owner: Bytes) returns (k: nat)
    ensures k <= |inputs| && AgreeingWith(values, inputs, k, owner)
    ensures k < |inputs| ==> !AgreeingWith(values, inputs, k + 1, owner)
                             && ResolveSigner(values, inputs, owner) == Err(if inputs[k] in values then DifferentOwners else UnknownInput)
    ensures k == |inputs| ==>
              ResolveSigner(values, inputs, owner) == Ok(if inputs == [] then owner else values[inputs[k - 1]].owner)
  {
    k := 0;
    if inputs != [] && inputs[0] in values && (owner == [] || values[inputs[0]].owner == owner) {
      var first, rest := values[inputs[0]].owner, inputs[1..];
      var n := SignerStops(values, rest, first);
      k := n + 1;
      assert forall j | 0 <= j < |rest| :: rest[j] == inputs[j + 1];
      AgreeingExtends(values, inputs, n, owner);
      if n < |rest| {
        AgreeingExtends(values, inputs, n + 1, owner);
      }
    }
  }

  lemma AgreeingExtends(values: map<Hash, Value>, inputs: seq<Hash>, n: nat, owner: Bytes)
    requires n < |inputs| && inputs[0] in values && (owner == [] || values[inputs[0]].owner == owner)
    ensures AgreeingWith(values, inputs, n + 1, owner) <==> AgreeingWith(values, inputs[1..], n, values[inputs[0]].owner)
  {
    var rest := inputs[1..];
    assert forall j | 0 <= j < |rest| :: rest[j] == inputs[j + 1];
    assert forall j | 1 <= j < |inputs| :: inputs[j] == rest[j - 1];
  }

  /** The rules before ownership: no empty list, no repeated input, no expired output. */
  predicate WellFormed(now: Int64, tx: Transfer) {
    && tx.inputs != [] && tx.outputs != []
    && (forall i, j | 0 <= i < j < |tx.inputs| :: tx.inputs[i] != tx.inputs[j])
    && (forall v <- tx.outputs :: v.expiry == 0 || now < v.expiry)
  }

  /** Which verdict a transfer gets, exactly: the first rule it breaks in the order of the code. */
  lemma VerdictExact(env: Env, now: Int64, values: map<Hash, Value>, tx: Transfer)
    ensures var v, n := Validate(env, now, values, tx), |tx.inputs|;
            && (v == Failed(NoInputs) <==> n == 0)
            && (v == Failed(NoOutputs) <==> n > 0 && tx.outputs == [])
            && (v == Failed(InputConsumed) <==>
                  n > 0 && tx.outputs != [] && exists i, j | 0 <= i < j < n :: tx.inputs[i] == tx.inputs[j])
            && (v == Failed(OutputExpired) <==>
                  n > 0 && (forall i, j | 0 <= i < j < n :: tx.inputs[i] != tx.inputs[j]) && exists o <- tx.outputs :: 0 != o.expiry <= now)
            && (v == Failed(UnknownInput) <==>
                  WellFormed(now, tx) && exists k: nat | k < n :: Agreeing(values, tx.inputs, k) && tx.inputs[k] !in values)
            && (v == Failed(DifferentOwners) <==>
                  WellFormed(now, tx) && exists k: nat | k < n ::
                    Agreeing(values, tx.inputs, k) && tx.inputs[k] in values && !Agreeing(values, tx.inputs, k + 1))
            && (v == Failed(BadOwnerKey) <==>
                  WellFormed(now, tx) && Agreeing(values, tx.inputs, n) && |values[tx.inputs[n - 1]].owner| != 32)
            && (v == Failed(BadSignature) <==>
                  WellFormed(now, tx) && Agreeing(values, tx.inputs, n) && |values[tx.inputs[n - 1]].owner| == 32
                  && !env.verify(values[tx.inputs[n - 1]].owner, EncodeTransfer(tx), tx.sig))
            && (v == Nil <==>
                  WellFormed(now, tx) && Agreeing(values, tx.inputs, n) && |values[tx.inputs[n - 1]].owner| == 32
                  && env.verify(values[tx.inputs[n - 1]].owner, EncodeTransfer(tx), tx.sig))
  {
    hide EncodeTransfer, ResolveSigner;
    var k := SignerStops(values, tx.inputs, []);
    forall j: nat | j < |tx.inputs| && Agreeing(values, tx.inputs, j) && !Agreeing(values, tx.inputs, j + 1) ensures j == k {
      AgreeingPrefix(values, tx.inputs);
    }
  }

  lemma AgreeingPrefix(values: map<Hash, Value>, inputs: seq<Hash>)
    ensures forall i: nat, j: nat | i <= j <= |inputs| && Agreeing(values, inputs, j) :: Agreeing(values, inputs, i)
  {}

  // ---------------------------------------------------------------------------------------
  // Amounts

  function TotalAmount(outputs: seq<Value>): nat {
    if outputs == [] then 0 else outputs[0].amount + TotalAmount(outputs[1..])
  }

  lemma {:induction false} TotalAmountOfBoth(a: seq<Value>, b: seq<Value>)
    ensures TotalAmount(a + b) == TotalAmount(a) + TotalAmount(b)
  {
    if a == [] {
      assert a + b == b;
    } else {
      assert (a + b)[1..] == a[1..] + b;
      TotalAmountOfBoth(a[1..], b);
    }
  }

  /** The accumulated amount is the sum of all outputs, which wraps around at 2^64. */
  lemma {:induction false} AmountIsTotal(outputs: seq<Value>)
    ensures TransferAmount(outputs) == TotalAmount(outputs) % 0x1_0000_0000_0000_0000
  {
    if outputs != [] {
      var init, last := outputs[..|outputs| - 1], outputs[|outputs| - 1];
      AmountIsTotal(init);
      assert outputs == init + [last];
      TotalAmountOfBoth(init, [last]);
      WrappedSum(TotalAmount(init), last.amount);
    }
  }

  lemma WrappedSum(a: nat, b: nat)
    ensures (a % TWO_64 + b) % TWO_64 == (a + b) % TWO_64 == (a % TWO_64 + b % TWO_64) % TWO_64
  {
    assert a == TWO_64 * (a / TWO_64) + a % TWO_64 && b == TWO_64 * (b / TWO_64) + b % TWO_64;
    WrappedMultiple(a / TWO_64, a % TWO_64 + b);
    WrappedMultiple(b / TWO_64, a % TWO_64 + b % TWO_64);
  }

  lemma {:induction false} WrappedMultiple(k: nat, r: nat)
    ensures (TWO_64 * k + r) % TWO_64 == r % TWO_64
  {
    if k > 0 {
      WrappedMultiple(k - 1, r);
      assert TWO_64 * k + r == TWO_64 + (TWO_64 * (k - 1) + r);
    }
  }

  /** So it is the amount of a single output, and adds up over lists. */
  lemma AmountAddsUp(a: seq<Value>, b: seq<Value>, v: Value)
    ensures TransferAmount([]) == 0 && TransferAmount([v]) == v.amount
    ensures TransferAmount(a + b) == (TransferAmount(a) + TransferAmount(b)) % 0x1_0000_0000_0000_0000
  {
    AmountIsTotal([]);
    AmountIsTotal([v]);
    assert TotalAmount([v]) == v.amount + TotalAmount([v][1..]);
    AmountIsTotal(a);
    AmountIsTotal(b);
    AmountIsTotal(a + b);
    TotalAmountOfBoth(a, b);
    hide TransferAmount;
    WrappedSum(TotalAmount(a), TotalAmount(b));
  }

  /** What the confidence in a transfer must reach, by the total it moves. */
  function Tier(total: nat): real {
    var amount := total % 0x1_0000_0000_0000_0000;
    if amount < 50_000 then 0.45 else if amount < 500_000 then 0.70 else 0.88
  }

  // ---------------------------------------------------------------------------------------
  // Finality

  /** The status on every run: FINAL exactly when selected on all inputs with enough confidence,
      SELECTED exactly when selected on all inputs without it, PENDING exactly otherwise. */
  lemma StatusExact(env: Env, events: seq<Event>)
    ensures var st := Run(env, events);
            forall x <- st.txStore :: x in st.finality &&
              var f, tier := st.finality[x], Tier(TotalAmount(st.txStore[x].tx.outputs));
              && (f.status == FINAL <==> SelectedOnAll(st, x) && f.confidence >= tier)
              && (f.status == SELECTED <==> SelectedOnAll(st, x) && f.confidence < tier)
              && (f.status == PENDING <==> !SelectedOnAll(st, x))
  {
    hide Inv, Run, FinalityOf, SelectedOnAll, TotalAmount;
    var st := Run(env, events);
    forall x | x in st.txStore
      ensures x in st.finality &&
              var f, tier := st.finality[x], Tier(TotalAmount(st.txStore[x].tx.outputs));
              && (f.status == FINAL <==> SelectedOnAll(st, x) && f.confidence >= tier)
              && (f.status == SELECTED <==> SelectedOnAll(st, x) && f.confidence < tier)
              && (f.status == PENDING <==> !SelectedOnAll(st, x))
    {
      var now := FinalityTime(env, st, x);
      StatusOf(env, now, st, x);
      AmountIsTotal(st.txStore[x].tx.outputs);
    }
  }

  lemma {:induction false} ScanStops(selected: map<Hash, SelectedLineage>, x: Hash, inputs: seq<Hash>, score: real) returns (k: nat)
    ensures k <= |inputs| && (forall j | 0 <= j < k :: inputs[j] in selected && selected[inputs[j]].txID == x)
    ensures k < |inputs| ==> inputs[k] !in selected || selected[inputs[k]].txID != x
    ensures ScanInputs(selected, x, inputs, score) == (k == |inputs|, if k == 0 then score else selected[inputs[k - 1]].score)
  {
    k := 0;
    if inputs != [] && inputs[0] in selected && selected[inputs[0]].txID == x {
      var n := ScanStops(selected, x, inputs[1..], selected[inputs[0]].score);
      k := n + 1;
    }
  }

  /** The score shown on every run, of unselected transfers too: that of the last input before the
      first one selected for another transfer, and 0 if that is the first input. */
  lemma ScoreExact(env: Env, events: seq<Event>, x: Hash) returns (k: nat)
    requires x in Run(env, events).txStore
    ensures var st := Run(env, events);
            var inputs := st.txStore[x].tx.inputs;
            && k <= |inputs| && (forall j | 0 <= j < k :: inputs[j] in st.selected && st.selected[inputs[j]].txID == x)
            && (k < |inputs| ==> inputs[k] !in st.selected || st.selected[inputs[k]].txID != x)
            && x in st.finality && st.finality[x].score == if k == 0 then 0.0 else st.selected[inputs[k - 1]].score
  {
    hide Inv, Run, Confidence, CandidateOf, Threshold, TransferAmount, ScanInputs;
    var st := Run(env, events);
    var now := FinalityTime(env, st, x);
    k := ScanStops(st.selected, x, st.txStore[x].tx.inputs, 0.0);
  }

  /** The confidence in numbers: of the evidence held now, at the time one of the inputs was decided. */
  lemma ConfidenceExact(env: Env, events: seq<Event>, x: Hash) returns (i: Hash)
    requires LogLike(env.log) && x in Run(env, events).txStore
    ensures var st := Run(env, events);
            && i in st.txStore[x].tx.inputs && i in st.selected && x in st.finality
            && (SelectedOnAll(st, x) ==>
                  forall age: Int64 | IsAge(age, st.selected[i].updatedAt, st.txStore[x].firstSeen) ::
                    var proofs := ProofsOf(st, x);
                    st.finality[x].confidence
                    == ConfidenceOfCounts(env.log, |PeersOf(st, x)|, age, |Near(proofs)|, |Second(proofs)|, |Far(proofs)|))
  {
    hide Run, FinalityOf, Confidence, ConfidenceOfCounts, Near, Second, Far, IsAge, LogLike, SelectedOnAll, Inv;
    var st := Run(env, events);
    i := DecidedBy(env, st, x);
    var now := st.selected[i].updatedAt;
    StatusOf(env, now, st, x);
    var c := CandidateOf(st, x);
    forall age: Int64 | IsAge(age, now, c.firstSeen)
      ensures Confidence(env.log, now, c)
           == ConfidenceOfCounts(env.log, c.peerCount, age, |Near(c.proofs)|, |Second(c.proofs)|, |Far(c.proofs)|)
    {
      ConfidenceInNumbers(env.log, now, c, age);
    }
  }

  lemma DecidedBy(env: Env, st: State, x: Hash) returns (i: Hash)
    requires Inv(env, st) && x in st.txStore
    ensures i in st.txStore[x].tx.inputs && i in st.selected && x in st.finality
    ensures st.finality[x] == FinalityOf(env, st.selected[i].updatedAt, st, x)
  {
    hide Numbered, Evident, Addressed, FinalityOf, EntryFresh;
    assert FinalityFresh(env, st, x);
    i :| InputsOf(st, x, i) && i in st.selected && st.finality[x] == FinalityOf(env, st.selected[i].updatedAt, st, x);
  }

  /** No other stored transfer spends an input of `x`. */
  predicate Uncontested(st: State, x: Hash)
    requires x in st.txStore
  {
    forall y <- st.txStore, i <- st.txStore[x].tx.inputs :: y == x || i !in st.txStore[y].tx.inputs
  }

  lemma UncontestedSelected(env: Env, st: State, x: Hash)
    requires Inv(env, st) && x in st.txStore && Uncontested(st, x)
    ensures SelectedOnAll(st, x)
  {
    hide Inv;
    forall i | i in st.txStore[x].tx.inputs ensures i in st.selected && st.selected[i].txID == x {
      UncontestedInput(env, st, x, i);
    }
  }

  lemma UncontestedInput(env: Env, st: State, x: Hash, i: Hash)
    requires Inv(env, st) && x in st.txStore && Uncontested(st, x) && i in st.txStore[x].tx.inputs
    ensures i in st.selected && st.selected[i].txID == x
  {
    hide Evident, Addressed, SelectBest, CandidateOf, FinalityFresh;
    var xs := ConflictSet(st, i);
    assert InputsOf(st, x, i) && EntryFresh(env, st, i);
    AloneInOrder(st, x, i);
    OnlyCandidate(env, st.selected[i].updatedAt, st, x);
  }

  lemma AloneInOrder(st: State, x: Hash, i: Hash)
    requires Indexed(st) && Numbered(st) && x in st.txStore && Uncontested(st, x) && i in st.txStore[x].tx.inputs
    ensures ConflictSet(st, i) == [x]
  {
    assert InputsOf(st, x, i);
    var xs := st.conflictSets[i];
    assert InOrder(st, xs);
    forall y | y in xs ensures y == x {
      assert InputsOf(st, y, i);
    }
    assert xs[0] == xs[|xs| - 1];
  }

  lemma OnlyCandidate(env: Env, now: Int64, st: State, x: Hash)
    requires x in st.txStore
    ensures SelectBest(env.log, now, Candidates(st, [x])).txID == x
  {
    var one := Candidates(st, [x]);
    assert one == [CandidateOf(st, x)];
    RankIsIdentity(one);
    assert one[0].txID == x;
  }

  /** A transfer of less than 50,000 that has been known for 30 seconds becomes FINAL as soon as one
      adjacent peer reports it seen and free of conflicts, if it is selected; and without a rival it is. */
  lemma OneProofMakesFinal(env: Env, tick: Tick, st: State, from: PeerId, m: Message)
    requires LogLike(env.log) && Inv(env, st) && MembersStored(st) && DecodeProofPayload(m.payload).Ok?
    requires var p := DecodeProofPayload(m.payload).value;
             && p.target in st.txStore && p.seen && !p.conflict && 0 <= p.distance <= 1
             && 30 <= tick.now - st.txStore[p.target].firstSeen < 0x8000_0000_0000_0000
             && TotalAmount(st.txStore[p.target].tx.outputs) % 0x1_0000_0000_0000_0000 < 50_000
    ensures var x, r := DecodeProofPayload(m.payload).value.target, HandleProofResponse(env, tick, st, from, m).0;
            && x in r.txStore && x in r.finality
            && (r.finality[x].status == FINAL <==> SelectedOnAll(r, x))
            && (Uncontested(st, x) ==> r.finality[x].status == FINAL)
  {
    hide Inv, DecodeProofPayload, RecomputeTransfer, FinalityOf, SelectedOnAll, Confidence, CandidateOf, TotalAmount;
    hide LogLike, Uncontested;
    var p := DecodeProofPayload(m.payload).value;
    var x, proof := p.target, ProofRecord(from, p.seen, p.seenTime, p.conflict, p.distance);
    var r := HandleProofResponse(env, tick, st, from, m).0;
    HandleProofResponseKeepsInv(env, tick, st, from, m);
    ProofDecided(env, tick.now, st, x, proof, r);
    StatusOf(env, tick.now, r, x);
    AmountIsTotal(r.txStore[x].tx.outputs);
    EnoughConfidence(env.log, tick.now, CandidateOf(r, x), proof);
    if Uncontested(st, x) {
      SameRivals(st, r, x);
      UncontestedSelected(env, r, x);
    }
  }

  /** After handling a proof, the target's finality is decided by the evidence that includes it. */
  lemma ProofDecided(env: Env, now: Int64, st: State, x: Hash, proof: ProofRecord, r: State)
    requires Inv(env, st) && x in st.txStore
    requires MembersStored(UpdateProof(st, x, proof)) && r == RecomputeTransfer(env, now, UpdateProof(st, x, proof), x)
    ensures r.txStore == st.txStore && st.txStore[x].tx.inputs != []
    ensures x in r.finality && r.finality[x] == FinalityOf(env, now, r, x)
    ensures var c := CandidateOf(r, x);
            c.firstSeen == st.txStore[x].firstSeen && proof.peer in c.proofs && c.proofs[proof.peer] == proof
  {
    hide Evident, Addressed, FinalityOf, RecomputeTransfer, Refreshes, Numbered, Cached, Touched;
    var after := UpdateProof(st, x, proof);
    ProofReevidences(st, x, proof);
    ReevidencedRecompute(env, now, st, after, x);
    InputsIndexed(after, x);
    RefreshedAt(env, now, after, InputSet(st, x), r, x);
  }

  lemma SameRivals(st: State, r: State, x: Hash)
    requires r.txStore == st.txStore && x in st.txStore && Uncontested(st, x)
    ensures Uncontested(r, x)
  {}

  lemma EnoughConfidence(log: LogCount, now: Int64, c: Candidate, proof: ProofRecord)
    requires LogLike(log) && 30 <= now - c.firstSeen < 0x8000_0000_0000_0000
    requires proof.peer in c.proofs && c.proofs[proof.peer] == proof && proof.seen && !proof.conflict && 0 <= proof.distance <= 1
    ensures Confidence(log, now, c) >= 0.45
  {
    ConfidenceInNumbers(log, now, c, now - c.firstSeen);
    assert log(c.peerCount) >= 0.0;
    assert Near(c.proofs) == Near(c.proofs) - {proof.peer} + {proof.peer};
    hide LogLike, Confidence;
    ShareMonotone(1.0, WeightOfCounts(|Near(c.proofs)|, |Second(c.proofs)|, |Far(c.proofs)|));
  }
}
