/** The caches of a node agree with their from-scratch definitions: what holds in one state, and why
    recomputing only the inputs of the touched transfer keeps it. */
module Coherence {
  import opened Bytes
  import opened Crypto
  import opened Replay
  import opened Selection
  import opened NodeState

  // ---------------------------------------------------------------------------------------
  // The conflict sets are an exact index of the stored transfers

  predicate InputsOf(st: State, x: Hash, i: Hash)
    requires x in st.txStore
  {
    i in st.txStore[x].tx.inputs
  }

  ghost predicate Indexed(st: State) {
    && (forall i <- st.conflictSets, x <- st.conflictSets[i] :: x in st.txStore && InputsOf(st, x, i))
    && (forall x, i | x in st.txStore && InputsOf(st, x, i) :: i in st.conflictSets && x in st.conflictSets[i])
    && (forall i <- st.conflictSets :: st.conflictSets[i] != [])
    && (forall x <- st.txStore :: st.txStore[x].tx.inputs != [] && NoDuplicates(st.txStore[x].tx.inputs))
  }

  /** Arrival numbers are 1..n without gaps or repeats, and every conflict set is in arrival order. */
  ghost predicate Numbered(st: State) {
    && st.arrivalSeq == |st.txStore|
    && DistinctArrivals(st)
    && (forall i <- st.conflictSets :: InOrder(st, st.conflictSets[i]))
  }

  ghost predicate DistinctArrivals(st: State) {
    && (forall x <- st.txStore :: 1 <= st.txStore[x].arrivalSeq <= st.arrivalSeq)
    && (forall x <- st.txStore, y <- st.txStore | x != y :: st.txStore[x].arrivalSeq != st.txStore[y].arrivalSeq)
  }

  ghost predicate InOrder(st: State, xs: seq<Hash>) {
    && (forall x <- xs :: x in st.txStore)
    && (forall a, b | 0 <= a < b < |xs| :: st.txStore[xs[a]].arrivalSeq < st.txStore[xs[b]].arrivalSeq)
  }

  // ---------------------------------------------------------------------------------------
  // The two caches

  ghost predicate EntryFresh(env: Env, st: State, i: Hash)
    requires Indexed(st) && i in st.conflictSets
  {
    i in st.selected && st.selected[i] == EntryAt(env, st.selected[i].updatedAt, st, i)
  }

  /** The finality entry is the from-scratch one at the time one of the inputs was last decided. */
  ghost predicate FinalityFresh(env: Env, st: State, x: Hash)
    requires x in st.txStore
  {
    && x in st.finality
    && exists i :: InputsOf(st, x, i) && i in st.selected && st.finality[x] == FinalityOf(env, st.selected[i].updatedAt, st, x)
  }

  ghost predicate Cached(env: Env, st: State)
    requires Indexed(st)
  {
    && st.selected.Keys == st.conflictSets.Keys
    && st.finality.Keys == st.txStore.Keys
    && (forall i <- st.conflictSets :: EntryFresh(env, st, i))
    && (forall x <- st.txStore :: FinalityFresh(env, st, x))
  }

  // ---------------------------------------------------------------------------------------
  // What the caches depend on

  lemma EntryFrame(env: Env, now: Int64, st: State, st': State, i: Hash)
    requires ConflictSet(st, i) != [] && ConflictSet(st', i) == ConflictSet(st, i)
    requires forall x <- ConflictSet(st, i) :: x in st.txStore && x in st'.txStore && CandidateOf(st, x) == CandidateOf(st', x)
    ensures EntryAt(env, now, st, i) == EntryAt(env, now, st', i)
  {
    assert Candidates(st, ConflictSet(st, i)) == Candidates(st', ConflictSet(st, i));
  }

  predicate SameOn(selected: map<Hash, SelectedLineage>, selected': map<Hash, SelectedLineage>, inputs: seq<Hash>) {
    forall i <- inputs :: (i in selected <==> i in selected') && (i in selected ==> selected[i] == selected'[i])
  }

  lemma {:induction false} ScanFrame(
      selected: map<Hash, SelectedLineage>, selected': map<Hash, SelectedLineage>, x: Hash, inputs: seq<Hash>, score: real)
    requires SameOn(selected, selected', inputs)
    ensures ScanInputs(selected, x, inputs, score) == ScanInputs(selected', x, inputs, score)
  {
    if inputs != [] && inputs[0] in selected && selected[inputs[0]].txID == x {
      ScanFrame(selected, selected', x, inputs[1..], selected[inputs[0]].score);
    }
  }

  lemma FinalityFrame(env: Env, now: Int64, st: State, st': State, x: Hash)
    requires x in st.txStore && x in st'.txStore && st.txStore[x].tx == st'.txStore[x].tx
    requires CandidateOf(st, x) == CandidateOf(st', x) && SameOn(st.selected, st'.selected, st.txStore[x].tx.inputs)
    ensures FinalityOf(env, now, st, x) == FinalityOf(env, now, st', x)
  {
    ScanFrame(st.selected, st'.selected, x, st.txStore[x].tx.inputs, 0.0);
  }

  /** The finality loop finds a transfer selected iff every input's lineage names it. */
  lemma {:induction false} ScanSelected(selected: map<Hash, SelectedLineage>, x: Hash, inputs: seq<Hash>, score: real)
    ensures ScanInputs(selected, x, inputs, score).0 <==> forall i <- inputs :: i in selected && selected[i].txID == x
    ensures ScanInputs(selected, x, inputs, score).0 && inputs != [] ==>
              ScanInputs(selected, x, inputs, score).1 == selected[inputs[|inputs| - 1]].score
  {
    if inputs != [] {
      assert inputs == [inputs[0]] + inputs[1..];
      if inputs[0] in selected && selected[inputs[0]].txID == x {
        ScanSelected(selected, x, inputs[1..], selected[inputs[0]].score);
      }
    }
  }

  // ---------------------------------------------------------------------------------------
  // Recomputing a set of inputs at once

  predicate Shares(st: State, x: Hash, inputs: set<Hash>)
    requires x in st.txStore
  {
    exists i <- inputs :: InputsOf(st, x, i)
  }

  function Touched(st: State, inputs: set<Hash>): (xs: set<Hash>)
    ensures xs <= st.txStore.Keys
  {
    set x | x in st.txStore && Shares(st, x, inputs)
  }

  /** `r` is `st` with both caches decided anew, at one time, for the given inputs. The order in
      which inputs and transfers are visited does not appear. */
  ghost predicate Refreshes(env: Env, now: Int64, st: State, inputs: set<Hash>, r: State)
    requires Indexed(st)
  {
    && inputs <= st.conflictSets.Keys
    && r == st.(selected := r.selected, finality := r.finality)
    && r.selected.Keys == st.selected.Keys + inputs
    && r.finality.Keys == st.finality.Keys + Touched(st, inputs)
    && (forall i <- r.selected :: r.selected[i] == if i in inputs then EntryAt(env, now, st, i) else st.selected[i])
    && (forall x <- r.finality ::
          r.finality[x] == if x in Touched(st, inputs) then FinalityOf(env, now, r, x) else st.finality[x])
  }

  /** Two states that differ from `st` in their caches only have the same evidence. */
  lemma SameEvidence(st: State, st': State, x: Hash)
    requires st' == st.(selected := st'.selected, finality := st'.finality) && x in st.txStore
    ensures CandidateOf(st', x) == CandidateOf(st, x)
  {}

  lemma RefreshesUnique(env: Env, now: Int64, st: State, inputs: set<Hash>, r: State, q: State)
    requires Indexed(st) && Refreshes(env, now, st, inputs, r) && Refreshes(env, now, st, inputs, q)
    ensures r == q
  {
    hide FinalityOf, EntryAt, CandidateOf, Touched;
    assert r.selected == q.selected;
    forall x | x in r.finality ensures r.finality[x] == q.finality[x] {
      if x in Touched(st, inputs) {
        SameEvidence(st, r, x);
        SameEvidence(st, q, x);
        FinalityFrame(env, now, r, q, x);
      }
    }
    assert r.finality == q.finality;
  }

  /** What the loop over the members of one conflict set writes. */
  ghost predicate Updates(env: Env, now: Int64, st: State, xs: seq<Hash>, r: State) {
    && r == st.(finality := r.finality)
    && r.finality.Keys == st.finality.Keys + Elements(xs)
    && (forall x <- xs :: x in st.txStore)
    && (forall x <- r.finality :: r.finality[x] == if x in xs then FinalityOf(env, now, st, x) else st.finality[x])
  }

  lemma {:induction false} UpdateFinalitiesUpdates(env: Env, now: Int64, st: State, xs: seq<Hash>)
    requires forall x <- xs :: x in st.txStore
    ensures Updates(env, now, st, xs, UpdateFinalities(env, now, st, xs))
  {
    hide FinalityOf, CandidateOf, Updates;
    if xs == [] {
      NothingUpdated(env, now, st);
    } else {
      var init, last := xs[..|xs| - 1], xs[|xs| - 1];
      assert xs == init + [last];
      UpdateFinalitiesUpdates(env, now, st, init);
      UpdateOneMore(env, now, st, init, UpdateFinalities(env, now, st, init), last);
    }
  }

  lemma NothingUpdated(env: Env, now: Int64, st: State)
    ensures Updates(env, now, st, [], st)
  {}

  lemma UpdateOneMore(env: Env, now: Int64, st: State, init: seq<Hash>, mid: State, last: Hash)
    requires Updates(env, now, st, init, mid) && last in st.txStore
    ensures Updates(env, now, st, init + [last], UpdateFinality(env, now, mid, last))
  {
    hide FinalityOf, CandidateOf;
    SameEvidence(st, mid, last);
    FinalityFrame(env, now, st, mid, last);
    assert Elements(init + [last]) == Elements(init) + {last};
  }

  lemma RefreshNothing(env: Env, now: Int64, st: State)
    requires Indexed(st)
    ensures Refreshes(env, now, st, {}, st)
  {}

  lemma IndexedMembersStored(st: State)
    requires Indexed(st)
    ensures MembersStored(st)
  {}

  lemma ConflictSetTouched(st: State, j: Hash)
    requires Indexed(st) && j in st.conflictSets
    ensures ConflictSet(st, j) != [] && Elements(ConflictSet(st, j)) == Touched(st, {j})
    ensures forall x <- ConflictSet(st, j) :: x in st.txStore
  {
    forall x | x in Touched(st, {j}) ensures x in ConflictSet(st, j) {
      assert InputsOf(st, x, j);
    }
  }

  lemma DecideOneMore(env: Env, now: Int64, st: State, before: State, j: Hash)
    requires Indexed(st) && MembersStored(before) && j in st.conflictSets
    requires before == st.(selected := before.selected, finality := before.finality)
    ensures var xs := ConflictSet(st, j);
            && xs != [] && (forall x <- xs :: x in st.txStore)
            && RecomputeInput(env, now, before, j)
               == UpdateFinalities(env, now, before.(selected := before.selected[j := EntryAt(env, now, st, j)]), xs)
  {
    hide EntryAt, CandidateOf, Indexed, UpdateFinalities;
    ConflictSetTouched(st, j);
    var xs := ConflictSet(st, j);
    assert ConflictSet(before, j) == xs;
    forall x | x in xs ensures CandidateOf(st, x) == CandidateOf(before, x) {
      SameEvidence(st, before, x);
    }
    EntryFrame(env, now, st, before, j);
  }

  /** Deciding one more input, as the code does it, is deciding the larger set at once: a member of
      an earlier input that also spends this one is visited again. */
  lemma RefreshOneMore(env: Env, now: Int64, st: State, inputs: set<Hash>, before: State, j: Hash)
    requires Indexed(st) && MembersStored(before) && Refreshes(env, now, st, inputs, before) && j in st.conflictSets
    ensures Refreshes(env, now, st, inputs + {j}, RecomputeInput(env, now, before, j))
  {
    hide FinalityOf, EntryAt, CandidateOf, Touched, Indexed, MembersStored, UpdateFinalities, RecomputeInput;
    DecideOneMore(env, now, st, before, j);
    ConflictSetTouched(st, j);
    var xs := ConflictSet(st, j);
    var decided := before.(selected := before.selected[j := EntryAt(env, now, st, j)]);
    var r := RecomputeInput(env, now, before, j);
    UpdateFinalitiesUpdates(env, now, decided, xs);
    TouchedUnion(st, inputs, {j});
    forall x | x in r.finality ensures FinalityRefreshed(env, now, st, inputs + {j}, r, x) {
      RefreshOneMoreFinality(env, now, st, inputs, before, j, decided, r, x);
    }
  }

  lemma TouchedUnion(st: State, inputs: set<Hash>, more: set<Hash>)
    ensures Touched(st, inputs + more) == Touched(st, inputs) + Touched(st, more)
  {
    forall x | x in st.txStore ensures Shares(st, x, inputs + more) <==> Shares(st, x, inputs) || Shares(st, x, more) {}
  }

  lemma UntouchedInputs(st: State, inputs: set<Hash>, x: Hash)
    requires x in st.txStore && x !in Touched(st, inputs)
    ensures forall i <- st.txStore[x].tx.inputs :: i !in inputs
  {
    assert forall i <- st.txStore[x].tx.inputs :: InputsOf(st, x, i);
  }

  lemma RefreshedCaches(env: Env, now: Int64, st: State, inputs: set<Hash>, r: State)
    requires Indexed(st) && Refreshes(env, now, st, inputs, r)
    ensures r == st.(selected := r.selected, finality := r.finality) && inputs <= st.conflictSets.Keys
    ensures r.selected.Keys == st.selected.Keys + inputs && r.finality.Keys == st.finality.Keys + Touched(st, inputs)
  {
    hide FinalityOf, EntryAt, CandidateOf, Touched, Indexed;
  }

  /** What a refresh says about one transfer's finality and about the lineages of untouched inputs. */
  lemma RefreshedAt(env: Env, now: Int64, st: State, inputs: set<Hash>, r: State, x: Hash)
    requires Indexed(st) && Refreshes(env, now, st, inputs, r)
    ensures x in Touched(st, inputs) ==> x in r.finality && r.finality[x] == FinalityOf(env, now, r, x)
    ensures x in r.finality && x !in Touched(st, inputs) ==> x in st.finality && r.finality[x] == st.finality[x]
  {
    hide FinalityOf, EntryAt, CandidateOf, Touched, Indexed;
  }

  ghost predicate FinalityRefreshed(env: Env, now: Int64, st: State, inputs: set<Hash>, r: State, x: Hash) {
    x in r.finality
    && if x in Touched(st, inputs) then x in r.txStore && r.finality[x] == FinalityOf(env, now, r, x)
       else x in st.finality && r.finality[x] == st.finality[x]
  }

  lemma RefreshOneMoreFinality(
      env: Env, now: Int64, st: State, inputs: set<Hash>, before: State, j: Hash, decided: State, r: State, x: Hash)
    requires Indexed(st) && Refreshes(env, now, st, inputs, before) && j in st.conflictSets
    requires decided == before.(selected := decided.selected) && decided.selected.Keys == before.selected.Keys + {j}
    requires forall i <- before.selected | i != j :: decided.selected[i] == before.selected[i]
    requires Updates(env, now, decided, ConflictSet(st, j), r) && x in r.finality
    ensures FinalityRefreshed(env, now, st, inputs + {j}, r, x)
  {
    hide FinalityOf, EntryAt, CandidateOf, Touched, Indexed, Refreshes;
    ConflictSetTouched(st, j);
    TouchedUnion(st, inputs, {j});
    RefreshedAt(env, now, st, inputs, before, x);
    RefreshedCaches(env, now, st, inputs, before);
    if x in Touched(st, {j}) {
      SameEvidence(decided, r, x);
      FinalityFrame(env, now, decided, r, x);
    } else if x in Touched(st, inputs) {
      UntouchedInputs(st, {j}, x);
      SameEvidence(before, r, x);
      FinalityFrame(env, now, before, r, x);
    }
  }

  lemma {:induction false} RecomputeInputsRefreshes(env: Env, now: Int64, st: State, inputs: seq<Hash>)
    requires Indexed(st) && MembersStored(st) && Elements(inputs) <= st.conflictSets.Keys
    ensures Refreshes(env, now, st, Elements(inputs), RecomputeInputs(env, now, st, inputs))
  {
    hide Refreshes, Indexed, MembersStored, RecomputeInput;
    if inputs == [] {
      RefreshNothing(env, now, st);
      assert Elements(inputs) == {};
    } else {
      var init, last := inputs[..|inputs| - 1], inputs[|inputs| - 1];
      assert inputs == init + [last];
      RecomputeInputsRefreshes(env, now, st, init);
      assert Elements(inputs) == Elements(init) + {last};
      var before := RecomputeInputs(env, now, st, init);
      SameMembersStored(st, before);
      RefreshOneMore(env, now, st, Elements(init), before, last);
    }
  }

  lemma SameMembersStored(st: State, st': State)
    requires MembersStored(st) && st'.txStore == st.txStore && st'.conflictSets == st.conflictSets
    ensures MembersStored(st')
  {}

  lemma InputsIndexed(st: State, x: Hash)
    requires Indexed(st) && x in st.txStore
    ensures Elements(st.txStore[x].tx.inputs) <= st.conflictSets.Keys
    ensures x in Touched(st, Elements(st.txStore[x].tx.inputs))
  {
    var inputs := st.txStore[x].tx.inputs;
    forall i | i in inputs ensures i in st.conflictSets {
      assert InputsOf(st, x, i);
    }
    assert InputsOf(st, x, inputs[0]);
  }

  /** recomputeSelectionForTransfer decides exactly the inputs of the transfer anew; its closing
      finality update changes nothing. */
  lemma RecomputeTransferRefreshes(env: Env, now: Int64, st: State, x: Hash)
    requires Indexed(st) && MembersStored(st) && x in st.txStore
    ensures Refreshes(env, now, st, Elements(st.txStore[x].tx.inputs), RecomputeTransfer(env, now, st, x))
  {
    hide FinalityOf, EntryAt, CandidateOf, Touched, Indexed, RecomputeInputs;
    InputsIndexed(st, x);
    RecomputeInputsRefreshes(env, now, st, st.txStore[x].tx.inputs);
    var r := RecomputeInputs(env, now, st, st.txStore[x].tx.inputs);
    assert r.finality[x := FinalityOf(env, now, r, x)] == r.finality;
  }

  /** In `r` the input has the lineage selected from scratch in `st`. */
  ghost predicate DecidedAs(env: Env, now: Int64, st: State, r: State, i: Hash) {
    && ConflictSet(st, i) != [] && (forall x <- ConflictSet(st, i) :: x in st.txStore)
    && i in r.selected && r.selected[i] == EntryAt(env, now, st, i)
  }

  lemma RefreshedLineages(env: Env, now: Int64, st: State, inputs: set<Hash>, r: State)
    requires Indexed(st) && Refreshes(env, now, st, inputs, r)
    ensures inputs <= st.conflictSets.Keys && r.selected.Keys == st.selected.Keys + inputs
    ensures r.finality.Keys == st.finality.Keys + Touched(st, inputs)
    ensures forall i <- inputs :: DecidedAs(env, now, st, r, i)
    ensures forall i <- st.selected | i !in inputs :: i in r.selected && r.selected[i] == st.selected[i]
  {
    hide FinalityOf, EntryAt, CandidateOf, Touched, Indexed;
    forall i | i in inputs ensures DecidedAs(env, now, st, r, i) {
      ConflictSetTouched(st, i);
    }
  }

  // ---------------------------------------------------------------------------------------
  // A refresh repairs the caches

  /** The caches are right except on `inputs` and the transfers that spend one of them. */
  ghost predicate CachedOutside(env: Env, st: State, inputs: set<Hash>)
    requires Indexed(st)
  {
    && inputs <= st.conflictSets.Keys
    && st.selected.Keys + inputs == st.conflictSets.Keys
    && st.finality.Keys + Touched(st, inputs) == st.txStore.Keys
    && (forall i <- st.conflictSets | i !in inputs :: EntryFresh(env, st, i))
    && (forall x <- st.txStore | x !in Touched(st, inputs) :: FinalityFresh(env, st, x))
  }

  lemma IndexedFrame(st: State, st': State)
    requires Indexed(st) && st'.txStore == st.txStore && st'.conflictSets == st.conflictSets
    ensures Indexed(st')
  {
    assert forall x, i | x in st.txStore :: InputsOf(st', x, i) == InputsOf(st, x, i);
  }

  lemma EntryTime(env: Env, now: Int64, st: State, i: Hash)
    requires Indexed(st) && i in st.conflictSets
    ensures EntryAt(env, now, st, i).updatedAt == now
  {}

  lemma RefreshedEntry(env: Env, now: Int64, st: State, inputs: set<Hash>, r: State, i: Hash)
    requires Indexed(st) && Indexed(r) && Refreshes(env, now, st, inputs, r) && CachedOutside(env, st, inputs)
    requires i in st.conflictSets
    ensures EntryFresh(env, r, i)
  {
    hide FinalityOf, EntryAt, CandidateOf, Touched, Indexed;
    ConflictSetTouched(st, i);
    forall x | x in ConflictSet(st, i) ensures CandidateOf(st, x) == CandidateOf(r, x) {
      SameEvidence(st, r, x);
    }
    EntryTime(env, now, st, i);
    assert i !in inputs ==> EntryFresh(env, st, i);
    EntryFrame(env, r.selected[i].updatedAt, st, r, i);
  }

  lemma RefreshedFinality(env: Env, now: Int64, st: State, inputs: set<Hash>, r: State, x: Hash)
    requires Indexed(st) && Refreshes(env, now, st, inputs, r) && CachedOutside(env, st, inputs) && x in st.txStore
    ensures FinalityFresh(env, r, x)
  {
    hide FinalityOf, EntryAt, CandidateOf, Indexed;
    if x in Touched(st, inputs) {
      var i :| i in inputs && InputsOf(st, x, i);
      EntryTime(env, now, st, i);
      assert InputsOf(r, x, i);
    } else {
      assert FinalityFresh(env, st, x);
      var i :| InputsOf(st, x, i) && i in st.selected && st.finality[x] == FinalityOf(env, st.selected[i].updatedAt, st, x);
      assert InputsOf(r, x, i);
      UntouchedInputs(st, inputs, x);
      SameEvidence(st, r, x);
      FinalityFrame(env, st.selected[i].updatedAt, st, r, x);
    }
  }

  lemma RefreshRepairs(env: Env, now: Int64, st: State, inputs: set<Hash>, r: State)
    requires Indexed(st) && CachedOutside(env, st, inputs) && Refreshes(env, now, st, inputs, r)
    ensures Indexed(r) && Cached(env, r)
  {
    hide EntryFresh, FinalityFresh, FinalityOf, EntryAt, Touched;
    IndexedFrame(st, r);
    forall i | i in r.conflictSets ensures EntryFresh(env, r, i) {
      RefreshedEntry(env, now, st, inputs, r, i);
    }
    forall x | x in r.txStore ensures FinalityFresh(env, r, x) {
      RefreshedFinality(env, now, st, inputs, r, x);
    }
  }
}
