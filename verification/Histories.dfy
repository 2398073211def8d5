/** What accumulates over a run of one node: permanent ranks, ordered times, provenance, local spending. */
module Histories {
  import opened Bytes
  import opened Crypto
  import opened Protocol
  import opened Replay
  import opened Selection
  import opened NodeState
  import opened Coherence
  import opened Invariants
  import opened Runs
  import opened Promises

  // ---------------------------------------------------------------------------------------
  // The shape of a step

  /** Records are never removed, and never change in what they say about content and arrival. */
  ghost predicate RecordsKept(st: State, r: State) {
    forall x <- st.txStore :: x in r.txStore
      && r.txStore[x] == st.txStore[x].(peers := r.txStore[x].peers, seenCount := r.txStore[x].seenCount)
  }

  /** Nothing new is stored. */
  ghost predicate Quiet(st: State, r: State) {
    && RecordsKept(st, r) && r.txStore.Keys == st.txStore.Keys
    && r.conflictSets == st.conflictSets && r.valueStore == st.valueStore && r.arrivalSeq == st.arrivalSeq
  }

  /** Exactly `tx` is new, at clock `now`; its inputs were known. */
  ghost predicate Grew(now: Int64, st: State, r: State, tx: Transfer) {
    && RecordsKept(st, r) && tx.id !in st.txStore && r.txStore.Keys == st.txStore.Keys + {tx.id}
    && r.txStore[tx.id].tx == tx && r.txStore[tx.id].firstSeen == now
    && r.txStore[tx.id].arrivalSeq == r.arrivalSeq == st.arrivalSeq + 1
    && r.valueStore == StoreOutputs(st.valueStore, tx.outputs)
    && MemberAdded(st, tx.id, tx.inputs, r)
    && (forall i <- tx.inputs :: i in st.valueStore) && (forall v <- tx.outputs :: v.id in r.valueStore)
  }

  lemma SameCoreQuiet(st: State, r: State)
    requires SameCore(st, r)
    ensures Quiet(st, r)
  {}

  lemma ReevidencedQuiet(st: State, st': State, r: State, x: Hash)
    requires Reevidenced(st, st', x) && r == st'.(selected := r.selected, finality := r.finality, sent := r.sent)
    ensures Quiet(st, r)
  {
    hide CandidateOf;
  }

  lemma InsertGrew(env: Env, now: Int64, st: State, tx: Transfer, canonical: Bytes, from: PeerId, r: State)
    requires Inv(env, st) && tx.id !in st.txStore && tx == Normalize(env.hash, tx)
    requires forall i <- tx.inputs :: i in st.valueStore
    requires var s := Insert(now, st, tx, canonical, from); r == s.(selected := r.selected, finality := r.finality, sent := r.sent)
    ensures Grew(now, st, r, tx)
  {
    hide Insert, Cached, Numbered, Evident, StoreOutputs, Normalize, Indexed, MemberAdded, RecordAddressed;
    hide ComputeValueID, WithValueID;
    var s, record := Insert(now, st, tx, canonical, from), NewRecord(now, st, tx, canonical, from);
    InsertForm(now, st, tx, canonical, from);
    InsertMember(now, st, tx, canonical, from);
    MemberAddedFrame(st, tx.id, tx.inputs, s, r);
    NormalizedOutputs(env.hash, tx);
    StoreOutputsAddressed(env.hash, st.valueStore, tx.outputs);
  }

  lemma MemberAddedFrame(st: State, x: Hash, inputs: seq<Hash>, s: State, r: State)
    requires MemberAdded(st, x, inputs, s) && r.conflictSets == s.conflictSets
    ensures MemberAdded(st, x, inputs, r)
  {}

  lemma StoreSteps(env: Env, now: Int64, st: State, tx: Transfer, canonical: Bytes, from: PeerId, r: State)
    requires Inv(env, st) && MembersStored(st)
    requires tx == Normalize(env.hash, tx) && Validate(env, now, st.valueStore, tx) == Nil
    requires r == Store(env, now, st, tx, canonical, from).0.(sent := r.sent)
    ensures Quiet(st, r) || Grew(now, st, r, tx)
  {
    hide Inv, Validate, Normalize, Insert, ObservePeer, RecomputeTransfer, Reevidenced, Quiet, Grew;
    ValidatedShape(env, now, st.valueStore, tx);
    if tx.id in st.txStore {
      ObserveReevidences(now, st, tx.id, from);
      ReevidencedQuiet(st, ObservePeer(now, st, tx.id, from), r, tx.id);
    } else {
      InsertGrew(env, now, st, tx, canonical, from, r);
    }
  }

  lemma HandleSteps(env: Env, tick: Tick, st: State, from: PeerId, m: Message) returns (tx: Transfer)
    requires Inv(env, st) && MembersStored(st)
    ensures var r := Handle(env, tick, st, from, m).0; Quiet(st, r) || (Grew(tick.now, st, r, tx) && Sized(tx))
  {
    hide Inv, HandleInv, HandleGet, HandleProofRequest, SameCore, MembersStored, Validate, Quiet, Grew;
    hide DecodedTransfer, Store, Announce, RecomputeTransfer, UpdateProof, DecodeProofPayload, Reevidenced, Sized;
    tx := Transfer(0, [], [], [], 0);
    var r := Handle(env, tick, st, from, m).0;
    QueriesSend(tick, st, from, m);
    SameCoreQuiet(st, st);
    if m.typ == TX {
      var decoded := DecodedTransfer(env, m.payload);
      if decoded.Ok? && Validate(env, tick.now, st.valueStore, decoded.value.0) == Nil {
        tx := decoded.value.0;
        DecodedTransferFacts(env, m.payload);
        var (next, x, _) := Store(env, tick.now, st, tx, decoded.value.1, from);
        AnnounceSends(tick, next, PeersExcept(next, from), m.ttl, x);
        StoreSteps(env, tick.now, st, tx, decoded.value.1, from, r);
      }
    } else if m.typ == PROOF_RESP {
      match DecodeProofPayload(m.payload) {
        case Ok(p) =>
          var proof := ProofRecord(from, p.seen, p.seenTime, p.conflict, p.distance);
          ProofReevidences(st, p.target, proof);
          ReevidencedQuiet(st, UpdateProof(st, p.target, proof), r, p.target);
        case Err(_) =>
      }
    } else {
      SameCoreQuiet(st, r);
    }
  }

  /** Marking a message as seen, or consuming inputs, before a step does not show in its shape. */
  lemma StepAfterSameCore(now: Int64, st: State, mid: State, r: State, tx: Transfer)
    requires SameCore(st, mid)
    ensures Quiet(mid, r) ==> Quiet(st, r)
    ensures Grew(now, mid, r, tx) ==> Grew(now, st, r, tx)
  {
    hide StoreOutputs;
  }

  function TimeOf(e: Event): Int64 {
    if e.Deliver? || e.Submit? then e.tick.now else 0
  }

  lemma ApplySteps(env: Env, st: State, e: Event) returns (tx: Transfer)
    requires Inv(env, st) && MembersStored(st) && !e.Seed?
    ensures var r := Apply(env, st, e); Quiet(st, r) || Grew(TimeOf(e), st, r, tx)
  {
    hide Inv, Handle, Pruned, Quiet, Grew, SameCore, Normalize, Validate, Store, Announce, EncodeTransfer, MembersStored;
    var r := Apply(env, st, e);
    match e {
      case Deliver(tick, from, m) =>
        var marked := Mark(tick, st, m.messageId);
        tx := DeliverSteps(env, tick, st, from, m);
      case Submit(tick, t) =>
        tx := Normalize(env.hash, t);
        SubmitSteps(env, tick, st, t);
      case Connect(peer, _) =>
        tx := Transfer(0, [], [], [], 0);
        ConnectSameCore(st, peer);
        SameCoreQuiet(st, r);
    }
  }

  lemma DeliverSteps(env: Env, tick: Tick, st: State, from: PeerId, m: Message) returns (tx: Transfer)
    requires Inv(env, st) && MembersStored(st)
    ensures var r := OnMessage(env, tick, st, from, m).0; Quiet(st, r) || (Grew(tick.now, st, r, tx) && Sized(tx))
  {
    hide Inv, Handle, Pruned, Quiet, Grew, MembersStored, Sized;
    var r := OnMessage(env, tick, st, from, m).0;
    if m.messageId in Pruned(st.seen, tick.now) {
      tx := Transfer(0, [], [], [], 0);
      SameCoreQuiet(st, r);
    } else {
      var marked := Mark(tick, st, m.messageId);
      SameCoreKeepsInv(env, st, marked);
      InvMembersStored(env, marked);
      tx := HandleSteps(env, tick, marked, from, m);
      StepAfterSameCore(tick.now, st, marked, r, tx);
    }
  }

  lemma SubmitSteps(env: Env, tick: Tick, st: State, t: Transfer)
    requires Inv(env, st) && MembersStored(st)
    ensures var r := AcceptLocal(env, tick, st, t).0; Quiet(st, r) || Grew(tick.now, st, r, Normalize(env.hash, t))
  {
    hide Inv, Quiet, Grew, Normalize, Validate, Store, Announce, EncodeTransfer, MembersStored;
    var r, tx := AcceptLocal(env, tick, st, t).0, Normalize(env.hash, t);
    EncodingIgnoresIDs(env.hash, t);
    if Validate(env, tick.now, st.valueStore, tx) == Nil && Consumable(st.consumed, tx.inputs) {
      var consumed := st.(consumed := st.consumed + Elements(tx.inputs));
      SameCoreKeepsInv(env, st, consumed);
      InvMembersStored(env, consumed);
      var (next, x, _) := Store(env, tick.now, consumed, tx, EncodeTransfer(tx), []);
      AnnounceSends(tick, next, PeersExcept(next, []), LOCAL_TTL, x);
      StoreSteps(env, tick.now, consumed, tx, EncodeTransfer(tx), [], r);
      StepAfterSameCore(tick.now, st, consumed, r, tx);
    } else {
      SameCoreQuiet(st, r);
    }
  }

  lemma SeedSteps(env: Env, st: State, v: Value)
    ensures var r := SeedValue(env, st, v);
            r == st.(valueStore := r.valueStore) && r.valueStore.Keys == st.valueStore.Keys + {ComputeValueID(env.hash, v)}
  {
    hide EncodeValue;
  }

  // ---------------------------------------------------------------------------------------
  // Ranks are permanent

  /** Later states extend earlier ones: records stay, conflict sets only grow at the end. */
  ghost predicate Extends(st: State, r: State) {
    && RecordsKept(st, r)
    && forall i <- st.conflictSets :: i in r.conflictSets && st.conflictSets[i] <= r.conflictSets[i]
  }

  lemma ApplyExtends(env: Env, st: State, e: Event)
    requires Inv(env, st) && MembersStored(st)
    ensures Extends(st, Apply(env, st, e))
  {
    hide Inv, Apply, MembersStored;
    if e.Seed? {
      SeedExtends(env, st, e);
    } else {
      var tx := ApplySteps(env, st, e);
      StepExtends(TimeOf(e), st, Apply(env, st, e), tx);
    }
  }

  lemma SeedExtends(env: Env, st: State, e: Event)
    requires e.Seed? && MembersStored(st)
    ensures Extends(st, Apply(env, st, e))
  {
    hide WithValueID;
  }

  lemma StepExtends(now: Int64, st: State, r: State, tx: Transfer)
    requires Quiet(st, r) || Grew(now, st, r, tx)
    ensures Extends(st, r)
  {
    hide StoreOutputs;
  }

  lemma ExtendsTransitive(a: State, b: State, c: State)
    requires Extends(a, b) && Extends(b, c)
    ensures Extends(a, c)
  {}

  /** Whatever happens later, a stored transfer keeps its record and its rank in every conflict set. */
  lemma {:induction false} RanksArePermanent(env: Env, events: seq<Event>, n: nat)
    requires n <= |events|
    ensures Extends(Run(env, events[..n]), Run(env, events))
    decreases |events|
  {
    hide Extends, Inv, Apply, MembersStored;
    if n == |events| {
      assert events[..n] == events;
      SelfExtends(Run(env, events));
    } else {
      var init, last := events[..|events| - 1], events[|events| - 1];
      RanksArePermanent(env, init, n);
      assert init[..n] == events[..n];
      ApplyExtends(env, Run(env, init), last);
      ExtendsTransitive(Run(env, events[..n]), Run(env, init), Run(env, events));
    }
  }

  lemma SelfExtends(st: State)
    ensures Extends(st, st)
  {}

  // ---------------------------------------------------------------------------------------
  // Arrival order is time order

  predicate Timed(e: Event) {
    e.Deliver? || e.Submit?
  }

  /** The node's clock never goes back. */
  predicate ClockedRun(events: seq<Event>) {
    forall i, j | 0 <= i < j < |events| && Timed(events[i]) && Timed(events[j]) :: TimeOf(events[i]) <= TimeOf(events[j])
  }

  /** The run has not gone past `now`. */
  predicate RunUntil(events: seq<Event>, now: Int64) {
    forall i | 0 <= i < |events| && Timed(events[i]) :: TimeOf(events[i]) <= now
  }

  ghost predicate TimesOrdered(st: State, now: Int64) {
    && (forall x <- st.txStore :: st.txStore[x].firstSeen <= now)
    && (forall x <- st.txStore, y <- st.txStore | st.txStore[x].arrivalSeq < st.txStore[y].arrivalSeq ::
          st.txStore[x].firstSeen <= st.txStore[y].firstSeen)
  }

  lemma StepKeepsTimes(env: Env, st: State, r: State, tx: Transfer, now: Int64)
    requires DistinctArrivals(st) && TimesOrdered(st, now) && (Quiet(st, r) || Grew(now, st, r, tx))
    ensures TimesOrdered(r, now)
  {
    hide StoreOutputs, MemberAdded;
    forall x, y | x in r.txStore && y in r.txStore && r.txStore[x].arrivalSeq < r.txStore[y].arrivalSeq
      ensures r.txStore[x].firstSeen <= r.txStore[y].firstSeen
    {
      assert x in st.txStore || x == tx.id;
      assert y in st.txStore || y == tx.id;
    }
  }

  lemma InvDistinct(env: Env, st: State)
    requires Inv(env, st)
    ensures DistinctArrivals(st) && Indexed(st) && Numbered(st)
  {}

  /** Under a clock that never goes back, an earlier arrival was seen no later. */
  lemma {:induction false} ArrivalIsTimeOrder(env: Env, events: seq<Event>, now: Int64)
    requires ClockedRun(events) && RunUntil(events, now)
    ensures TimesOrdered(Run(env, events), now)
    decreases |events|
  {
    hide TimesOrdered, Apply, Inv, Quiet, Grew, DistinctArrivals;
    if events == [] {
      NothingTimed(now);
    } else {
      var init, last := events[..|events| - 1], events[|events| - 1];
      var st := Run(env, init);
      if Timed(last) {
        ArrivalIsTimeOrder(env, init, TimeOf(last));
        var tx := ApplySteps(env, st, last);
        InvDistinct(env, st);
        StepKeepsTimes(env, st, Apply(env, st, last), tx, TimeOf(last));
        LaterToo(Apply(env, st, last), TimeOf(last), now);
      } else {
        ArrivalIsTimeOrder(env, init, now);
        UntimedKeepsRecords(env, st, last);
        TimesFrame(st, Apply(env, st, last), now);
      }
    }
  }

  lemma LaterToo(st: State, now: Int64, later: Int64)
    requires TimesOrdered(st, now) && now <= later
    ensures TimesOrdered(st, later)
  {}

  lemma NothingTimed(now: Int64)
    ensures TimesOrdered(NEW_NODE, now)
  {}

  lemma TimesFrame(st: State, r: State, now: Int64)
    requires r.txStore == st.txStore && TimesOrdered(st, now)
    ensures TimesOrdered(r, now)
  {}

  lemma UntimedKeepsRecords(env: Env, st: State, e: Event)
    requires !Timed(e) && MembersStored(st)
    ensures Apply(env, st, e).txStore == st.txStore
  {
    hide OnMessage, AcceptLocal, SeedValue, AddPeer, AddPeerID, MembersStored;
    match e {
      case Seed(v) => SeedSteps(env, st, v);
      case Connect(p, _) => ConnectKeeps(st, p);
    }
  }

  lemma ConnectKeeps(st: State, p: PeerId)
    ensures AddPeer(st, p).consumed == st.consumed && AddPeerID(st, p).consumed == st.consumed
    ensures AddPeer(st, p).seen == st.seen && AddPeerID(st, p).seen == st.seen
    ensures AddPeer(st, p).txStore == st.txStore && AddPeerID(st, p).txStore == st.txStore
  {}

  /** On every run under such a clock, an earlier arrival with at least as many peers, proof weight
      and cleanliness beats its rival on a shared input at every time: the rival cannot be selected. */
  lemma EarlierDominates(env: Env, events: seq<Event>, i: Hash, a: nat, b: nat, now: Int64)
    requires LogLike(env.log) && ClockedRun(events)
    requires a < b < |ConflictSet(Run(env, events), i)|
    requires forall y <- ConflictSet(Run(env, events), i) :: y in Run(env, events).txStore
    requires var cs := Candidates(Run(env, events), ConflictSet(Run(env, events), i));
             && AgesFit(now, cs[a].firstSeen, cs[b].firstSeen)
             && cs[a].peerCount >= cs[b].peerCount
             && ProofWeight(cs[a].proofs) >= ProofWeight(cs[b].proofs)
             && Cleanliness(|cs|, cs[a].proofs) >= Cleanliness(|cs|, cs[b].proofs)
    ensures var st := Run(env, events);
            EntryAt(env, now, st, i).txID != ConflictSet(st, i)[b]
  {
    hide Run, Inv, ScoreTx, SelectBest, Cleanliness, ProofWeight, Wins;
    var st := Run(env, events);
    ArrivalIsTimeOrder(env, events, 0x7fff_ffff_ffff_ffff);
    InvDistinct(env, st);
    var xs := ConflictSet(st, i);
    var cs := Candidates(st, xs);
    assert InOrder(st, xs);
    Dominance(env.log, now, cs, a, b);
    CandidatesInOrder(st, xs);
    RankIsIdentity(cs);
    var w := UniqueWinner(env.log, now, cs);
    ScoredIDs(env.log, now, cs);
    NotDominated(env.log, now, cs, w, a, b);
  }

  lemma NotDominated(log: LogCount, now: Int64, ranked: seq<Candidate>, w: nat, a: nat, b: nat)
    requires a < b < |ranked| && w < |ranked| && Wins(log, now, ranked, w) && DistinctIDs(ranked)
    requires BetterScore(ScoreTx(log, now, ranked, a), ScoreTx(log, now, ranked, b))
    ensures ranked[w].txID != ranked[b].txID
  {
    hide ScoreTx;
    BetterScoreIsStrictTotalOrder(ScoreTx(log, now, ranked, a), ScoreTx(log, now, ranked, b), ScoreTx(log, now, ranked, b));
    assert w != b;
  }

  /** Once every competitor is 30 seconds old, deciding the input later changes only the timestamp. */
  lemma SettledEntry(env: Env, st: State, i: Hash, now: Int64, later: Int64)
    requires Inv(env, st) && i in st.conflictSets
    requires forall y <- ConflictSet(st, i) ::
               && y in st.txStore && 30 <= now - st.txStore[y].firstSeen < TWO_63
               && 30 <= later - st.txStore[y].firstSeen < TWO_63
    ensures ConflictSet(st, i) != []
    ensures EntryAt(env, later, st, i) == EntryAt(env, now, st, i).(updatedAt := later)
  {
    hide Cached, Evident, Addressed, SelectBest;
    var xs := ConflictSet(st, i);
    assert InOrder(st, xs);
    CandidatesInOrder(st, xs);
    Saturation(env.log, now, later, Candidates(st, xs));
  }

  // ---------------------------------------------------------------------------------------
  // Provenance

  predicate OutputOf(st: State, y: Hash, v: Hash)
    requires y in st.txStore
  {
    exists o <- st.txStore[y].tx.outputs :: o.id == v
  }

  /** Every known value was seeded or produced; every spent input by an earlier arrival. */
  ghost predicate Sourced(st: State, seeds: set<Hash>) {
    && (forall v <- st.valueStore :: v in seeds || exists y :: y in st.txStore && OutputOf(st, y, v))
    && (forall x, i | x in st.txStore && InputsOf(st, x, i) :: Backed(st, seeds, x, i))
  }

  ghost predicate Backed(st: State, seeds: set<Hash>, x: Hash, i: Hash)
    requires x in st.txStore
  {
    i in seeds || exists y :: y in st.txStore && OutputOf(st, y, i) && st.txStore[y].arrivalSeq < st.txStore[x].arrivalSeq
  }

  ghost function Seeds(env: Env, events: seq<Event>): set<Hash> {
    set e | e in events && e.Seed? :: ComputeValueID(env.hash, e.value)
  }

  lemma KeptSourced(st: State, r: State, seeds: set<Hash>, x: Hash, i: Hash)
    requires RecordsKept(st, r) && x in st.txStore && Backed(st, seeds, x, i)
    ensures Backed(r, seeds, x, i)
  {
    if i !in seeds {
      var y :| y in st.txStore && OutputOf(st, y, i) && st.txStore[y].arrivalSeq < st.txStore[x].arrivalSeq;
      assert OutputOf(r, y, i);
    }
  }

  lemma KeptOutput(st: State, r: State, y: Hash, v: Hash)
    requires RecordsKept(st, r) && y in st.txStore && OutputOf(st, y, v)
    ensures y in r.txStore && OutputOf(r, y, v)
  {}

  lemma QuietKeepsSourced(st: State, r: State, seeds: set<Hash>)
    requires Sourced(st, seeds) && Quiet(st, r)
    ensures Sourced(r, seeds)
  {
    forall v | v in r.valueStore && v !in seeds ensures exists y :: y in r.txStore && OutputOf(r, y, v) {
      var y :| y in st.txStore && OutputOf(st, y, v);
      KeptOutput(st, r, y, v);
    }
    forall x, i | x in r.txStore && InputsOf(r, x, i) ensures Backed(r, seeds, x, i) {
      assert InputsOf(st, x, i);
      KeptSourced(st, r, seeds, x, i);
    }
  }

  lemma {:induction false} StoredOutputs(values: map<Hash, Value>, outputs: seq<Value>, v: Hash)
    requires v in StoreOutputs(values, outputs)
    ensures v in values || exists o <- outputs :: o.id == v
  {
    if outputs != [] {
      var init, last := outputs[..|outputs| - 1], outputs[|outputs| - 1];
      assert outputs == init + [last];
      if v != last.id {
        StoredOutputs(values, init, v);
      }
    }
  }

  lemma {:induction false} StoreOutputsKeeps(values: map<Hash, Value>, outputs: seq<Value>)
    ensures values.Keys <= StoreOutputs(values, outputs).Keys
  {
    if outputs != [] {
      StoreOutputsKeeps(values, outputs[..|outputs| - 1]);
    }
  }

  lemma GrewKeepsSourced(now: Int64, st: State, r: State, tx: Transfer, seeds: set<Hash>)
    requires DistinctArrivals(st) && Sourced(st, seeds) && Grew(now, st, r, tx)
    ensures Sourced(r, seeds)
  {
    hide StoreOutputs, MemberAdded;
    forall v | v in r.valueStore && v !in seeds ensures exists y :: y in r.txStore && OutputOf(r, y, v) {
      StoredOutputs(st.valueStore, tx.outputs, v);
      if v in st.valueStore {
        var y :| y in st.txStore && OutputOf(st, y, v);
        KeptOutput(st, r, y, v);
      } else {
        assert OutputOf(r, tx.id, v);
      }
    }
    forall x, i | x in r.txStore && InputsOf(r, x, i) ensures Backed(r, seeds, x, i) {
      if x in st.txStore {
        assert InputsOf(st, x, i);
        KeptSourced(st, r, seeds, x, i);
      } else if i !in seeds {
        var y :| y in st.txStore && OutputOf(st, y, i);
        KeptOutput(st, r, y, i);
      }
    }
  }

  lemma SeedKeepsSourced(env: Env, st: State, v: Value, seeds: set<Hash>)
    requires Sourced(st, seeds)
    ensures Sourced(SeedValue(env, st, v), seeds + {ComputeValueID(env.hash, v)})
  {
    SeedSteps(env, st, v);
    hide SeedValue, ComputeValueID;
    var r, more := SeedValue(env, st, v), seeds + {ComputeValueID(env.hash, v)};
    forall w | w in r.valueStore && w !in more ensures exists y :: y in r.txStore && OutputOf(r, y, w) {
      var y :| y in st.txStore && OutputOf(st, y, w);
      assert OutputOf(r, y, w);
    }
    forall x, i | x in r.txStore && InputsOf(r, x, i) ensures Backed(r, more, x, i) {
      assert InputsOf(st, x, i);
      KeptSourced(st, r, seeds, x, i);
    }
  }

  lemma {:induction false} RunSourced(env: Env, events: seq<Event>)
    ensures Sourced(Run(env, events), Seeds(env, events))
  {
    hide Sourced, Apply, Inv, Quiet, Grew, DistinctArrivals, ComputeValueID;
    if events == [] {
      NothingSourced(Seeds(env, events));
    } else {
      var init, last := events[..|events| - 1], events[|events| - 1];
      assert events == init + [last];
      RunSourced(env, init);
      var st := Run(env, init);
      if last.Seed? {
        SeedKeepsSourced(env, st, last.value, Seeds(env, init));
        SeededBy(env, init, last);
        SeedApplied(env, st, last);
      } else {
        assert Seeds(env, events) == Seeds(env, init);
        var tx := ApplySteps(env, st, last);
        var r := Apply(env, st, last);
        if Quiet(st, r) {
          QuietKeepsSourced(st, r, Seeds(env, init));
        } else {
          InvDistinct(env, st);
          GrewKeepsSourced(TimeOf(last), st, r, tx, Seeds(env, init));
        }
      }
    }
  }

  lemma SeedApplied(env: Env, st: State, e: Event)
    requires e.Seed? && MembersStored(st)
    ensures Apply(env, st, e) == SeedValue(env, st, e.value)
  {}

  lemma SeededBy(env: Env, init: seq<Event>, last: Event)
    requires last.Seed?
    ensures Seeds(env, init + [last]) == Seeds(env, init) + {ComputeValueID(env.hash, last.value)}
  {}

  lemma NothingSourced(seeds: set<Hash>)
    ensures Sourced(NEW_NODE, seeds)
  {}

  /** The value can be traced back to seeded values through transfers numbered at most `n`. */
  ghost predicate Traceable(st: State, seeds: set<Hash>, v: Hash, n: nat)
    decreases n
  {
    v in seeds ||
    exists y :: y in st.txStore && OutputOf(st, y, v) && 1 <= st.txStore[y].arrivalSeq <= n
      && forall i <- st.txStore[y].tx.inputs :: Traceable(st, seeds, i, st.txStore[y].arrivalSeq - 1)
  }

  lemma {:induction false} TraceableInputs(st: State, seeds: set<Hash>, x: Hash, i: Hash)
    requires DistinctArrivals(st) && Sourced(st, seeds) && x in st.txStore && i in st.txStore[x].tx.inputs
    ensures Traceable(st, seeds, i, st.txStore[x].arrivalSeq - 1)
    decreases st.txStore[x].arrivalSeq
  {
    assert InputsOf(st, x, i);
    if i !in seeds {
      var y :| y in st.txStore && OutputOf(st, y, i) && st.txStore[y].arrivalSeq < st.txStore[x].arrivalSeq;
      forall j | j in st.txStore[y].tx.inputs ensures Traceable(st, seeds, j, st.txStore[y].arrivalSeq - 1) {
        TraceableInputs(st, seeds, y, j);
      }
    }
  }

  /** On every run, each input of each stored transfer has a finite provenance that ends in seeded
      values and passes only through earlier arrivals. */
  lemma LineageWellFounded(env: Env, events: seq<Event>)
    ensures var st := Run(env, events);
            forall x <- st.txStore, i <- st.txStore[x].tx.inputs ::
              st.txStore[x].arrivalSeq > 0 && Traceable(st, Seeds(env, events), i, st.txStore[x].arrivalSeq - 1)
  {
    hide Run, Inv, Sourced, Traceable, Seeds;
    var st := Run(env, events);
    RunSourced(env, events);
    InvDistinct(env, st);
    forall x, i | x in st.txStore && i in st.txStore[x].tx.inputs
      ensures Traceable(st, Seeds(env, events), i, st.txStore[x].arrivalSeq - 1)
    {
      TraceableInputs(st, Seeds(env, events), x, i);
    }
  }

  // ---------------------------------------------------------------------------------------
  // Local single use

  /** The inputs an event spends locally: those of a submission that gets past ConsumeInputs. */
  function SpentBy(env: Env, st: State, e: Event): seq<Hash> {
    if e.Submit?
       && Validate(env, e.tick.now, st.valueStore, Normalize(env.hash, e.tx)) == Nil
       && Consumable(st.consumed, e.tx.inputs)
    then e.tx.inputs else []
  }

  lemma ApplySpends(env: Env, st: State, e: Event)
    requires MembersStored(st)
    ensures Apply(env, st, e).consumed == st.consumed + Elements(SpentBy(env, st, e))
  {
    hide AcceptLocal, OnMessage, SeedValue, AddPeer, AddPeerID, MembersStored, SpentBy;
    match e {
      case Deliver(tick, from, m) =>
        OnMessageSpendsNothing(env, tick, st, from, m);
        OnlySubmitSpends(env, st, e);
      case Submit(tick, t) =>
        SubmitSpends(env, tick, st, t);
      case Seed(v) =>
        SeedSteps(env, st, v);
        OnlySubmitSpends(env, st, e);
      case Connect(p, _) =>
        ConnectKeeps(st, p);
        OnlySubmitSpends(env, st, e);
    }
  }

  lemma OnlySubmitSpends(env: Env, st: State, e: Event)
    requires !e.Submit?
    ensures Elements(SpentBy(env, st, e)) == {}
  {}

  lemma OnMessageSpendsNothing(env: Env, tick: Tick, st: State, from: PeerId, m: Message)
    requires MembersStored(st)
    ensures OnMessage(env, tick, st, from, m).0.consumed == st.consumed
  {
    hide Handle, MembersStored;
    if m.messageId !in Pruned(st.seen, tick.now) {
      var marked := Mark(tick, st, m.messageId);
      SameMembersStored(st, marked);
      HandleSpendsNothing(env, tick, marked, from, m);
    }
  }

  lemma SubmitSpends(env: Env, tick: Tick, st: State, t: Transfer)
    requires MembersStored(st)
    ensures AcceptLocal(env, tick, st, t).0.consumed == st.consumed + Elements(SpentBy(env, st, Submit(tick, t)))
  {
    hide Normalize, Validate, Store, Announce, EncodeTransfer, MembersStored;
    NormalizeKeepsSignature(env.hash, t);
    var tx := Normalize(env.hash, t);
    if Validate(env, tick.now, st.valueStore, tx) == Nil && Consumable(st.consumed, tx.inputs) {
      var consumed := st.(consumed := st.consumed + Elements(tx.inputs));
      SameMembersStored(st, consumed);
      var (next, x, _) := Store(env, tick.now, consumed, tx, EncodeTransfer(tx), []);
      StoreSpendsNothing(env, tick.now, consumed, tx, EncodeTransfer(tx), []);
      AnnounceSends(tick, next, PeersExcept(next, []), LOCAL_TTL, x);
    }
  }

  lemma StoreSpendsNothing(env: Env, now: Int64, st: State, tx: Transfer, canonical: Bytes, from: PeerId)
    requires MembersStored(st)
    ensures Store(env, now, st, tx, canonical, from).0.consumed == st.consumed
  {
    hide Normalize, RecomputeTransfer, AddMembership, StoreOutputs, MembersStored;
  }

  lemma HandleSpendsNothing(env: Env, tick: Tick, st: State, from: PeerId, m: Message)
    requires MembersStored(st)
    ensures Handle(env, tick, st, from, m).0.consumed == st.consumed
  {
    hide HandleInv, HandleGet, HandleProofRequest, HandleTx, MembersStored, DecodeProofPayload, RecomputeTransfer, SameCore;
    QueriesSend(tick, st, from, m);
    if m.typ == TX {
      HandleTxSpendsNothing(env, tick, st, from, m);
    }
  }

  lemma HandleTxSpendsNothing(env: Env, tick: Tick, st: State, from: PeerId, m: Message)
    requires MembersStored(st)
    ensures HandleTx(env, tick, st, from, m).0.consumed == st.consumed
  {
    hide Validate, Store, Announce, DecodedTransfer, MembersStored;
    var decoded := DecodedTransfer(env, m.payload);
    if decoded.Ok? && Validate(env, tick.now, st.valueStore, decoded.value.0) == Nil {
      StoreSpendsNothing(env, tick.now, st, decoded.value.0, decoded.value.1, from);
      var (next, x, _) := Store(env, tick.now, st, decoded.value.0, decoded.value.1, from);
      AnnounceSends(tick, next, PeersExcept(next, from), m.ttl, x);
    }
  }

  /** What the n-th event of a run spends locally. */
  ghost function SpentAt(env: Env, events: seq<Event>, n: nat): seq<Hash>
    requires n < |events|
  {
    SpentBy(env, Run(env, events[..n]), events[n])
  }

  lemma {:induction false} ConsumedIsUnion(env: Env, events: seq<Event>, h: Hash)
    ensures h in Run(env, events).consumed <==> exists n: nat | n < |events| :: h in SpentAt(env, events, n)
  {
    hide Apply, SpentBy, Inv, MembersStored;
    if events != [] {
      var k := |events| - 1;
      var init := events[..k];
      ConsumedIsUnion(env, init, h);
      ApplySpends(env, Run(env, init), events[k]);
      forall n: nat | n < k ensures SpentAt(env, init, n) == SpentAt(env, events, n) {
        assert init[..n] == events[..n];
      }
      assert h in SpentAt(env, events, k) <==> h in SpentBy(env, Run(env, init), events[k]);
    }
  }

  /** Over every run, the local transfers that get past ConsumeInputs spend pairwise disjoint inputs,
      none of them twice, and `consumed` is exactly what they spent. */
  lemma LocalSingleUse(env: Env, events: seq<Event>)
    ensures forall h :: h in Run(env, events).consumed <==> exists n: nat | n < |events| :: h in SpentAt(env, events, n)
    ensures forall n: nat | n < |events| :: NoDuplicates(SpentAt(env, events, n))
    ensures forall m: nat, n: nat | m < n < |events| :: Elements(SpentAt(env, events, m)) !! Elements(SpentAt(env, events, n))
  {
    hide Run, SpentBy;
    forall h ensures h in Run(env, events).consumed <==> exists n: nat | n < |events| :: h in SpentAt(env, events, n) {
      ConsumedIsUnion(env, events, h);
    }
    forall n: nat | n < |events| ensures NoDuplicates(SpentAt(env, events, n)) {
      SpentIsFresh(env, Run(env, events[..n]), events[n]);
    }
    forall m: nat, n: nat | m < n < |events|
      ensures Elements(SpentAt(env, events, m)) !! Elements(SpentAt(env, events, n))
    {
      SpentDisjoint(env, events, m, n);
    }
  }

  lemma SpentIsFresh(env: Env, st: State, e: Event)
    ensures NoDuplicates(SpentBy(env, st, e)) && forall h <- SpentBy(env, st, e) :: h !in st.consumed
  {
    hide Validate, Normalize;
  }

  lemma SpentDisjoint(env: Env, events: seq<Event>, m: nat, n: nat)
    requires m < n < |events|
    ensures Elements(SpentAt(env, events, m)) !! Elements(SpentAt(env, events, n))
  {
    hide Run, SpentBy;
    SpentIsFresh(env, Run(env, events[..n]), events[n]);
    assert events[..n][..m] == events[..m] && SpentAt(env, events[..n], m) == SpentAt(env, events, m);
    forall h | h in SpentAt(env, events, m) ensures h !in SpentAt(env, events, n) {
      ConsumedIsUnion(env, events[..n], h);
    }
  }

  // ---------------------------------------------------------------------------------------
  // Replays

  /** What the replay cache sees of a run. */
  function ArrivalsOf(events: seq<Event>): seq<Arrival> {
    if events == [] then []
    else
      var init, last := ArrivalsOf(events[..|events| - 1]), events[|events| - 1];
      if last.Deliver? then init + [Arrival(last.tick.now, last.message.messageId)] else init
  }

  /** The node and its replay cache read the same clock. */
  predicate SharedClock(events: seq<Event>) {
    forall i | 0 <= i < |events| && events[i].Deliver? :: events[i].tick.cacheNow == events[i].tick.now
  }

  /** The n-th event is a message that gets to its handler. */
  ghost predicate Dispatched(env: Env, events: seq<Event>, n: nat)
    requires n < |events|
  {
    events[n].Deliver? && events[n].message.messageId !in Pruned(Run(env, events[..n]).seen, events[n].tick.now)
  }

  lemma {:induction false} ArrivalsPrefix(events: seq<Event>, n: nat)
    requires n < |events| && events[n].Deliver?
    ensures var k, arrivals := |ArrivalsOf(events[..n])|, ArrivalsOf(events);
            && k < |arrivals| && ArrivalsOf(events[..n]) == arrivals[..k]
            && arrivals[k] == Arrival(events[n].tick.now, events[n].message.messageId)
    decreases |events|
  {
    var init := events[..|events| - 1];
    if n < |init| {
      ArrivalsPrefix(init, n);
      assert init[..n] == events[..n];
    }
  }

  lemma ArrivalsOrdered(events: seq<Event>, j: nat, n: nat)
    requires j < n < |events| && events[j].Deliver? && events[n].Deliver?
    ensures |ArrivalsOf(events[..j])| < |ArrivalsOf(events[..n])|
  {
    ArrivalsPrefix(events[..n], j);
    assert events[..n][..j] == events[..j];
  }

  /** The event that made an arrival. */
  lemma {:induction false} EventOf(events: seq<Event>, n: nat, k: nat) returns (j: nat)
    requires n <= |events| && k < |ArrivalsOf(events[..n])|
    ensures j < n && events[j].Deliver? && |ArrivalsOf(events[..j])| == k
    decreases n
  {
    var init := events[..n][..n - 1];
    assert init == events[..n - 1];
    if k < |ArrivalsOf(init)| {
      j := EventOf(events, n - 1, k);
    } else {
      j := n - 1;
    }
  }

  lemma {:induction false} CacheOfRun(env: Env, events: seq<Event>)
    requires SharedClock(events)
    ensures Run(env, events).seen == SeenAfter(REPLAY_TTL, ArrivalsOf(events))
    decreases |events|
  {
    hide Apply, Inv, MembersStored;
    if events != [] {
      var init, last := events[..|events| - 1], events[|events| - 1];
      CacheOfRun(env, init);
      var st := Run(env, init);
      ApplySees(env, st, last);
      if last.Deliver? {
        var arrivals := ArrivalsOf(events);
        assert arrivals[..|arrivals| - 1] == ArrivalsOf(init);
      }
    }
  }

  lemma ApplySees(env: Env, st: State, e: Event)
    requires Inv(env, st) && MembersStored(st) && (e.Deliver? ==> e.tick.cacheNow == e.tick.now)
    ensures Apply(env, st, e).seen ==
            if e.Deliver? then Replay.Admit(REPLAY_TTL, st.seen, Arrival(e.tick.now, e.message.messageId)) else st.seen
  {
    hide Inv, MembersStored, AcceptLocal, OnMessage, SeedValue, AddPeer, AddPeerID, Pruned;
    match e {
      case Deliver(tick, from, m) => OnMessageSees(env, tick, st, from, m);
      case Submit(tick, t) => AcceptLocalLeavesSeen(env, tick, st, t);
      case Seed(v) => SeedSteps(env, st, v);
      case Connect(p, _) => ConnectKeeps(st, p);
    }
  }

  lemma OnMessageSees(env: Env, tick: Tick, st: State, from: PeerId, m: Message)
    requires MembersStored(st) && tick.cacheNow == tick.now
    ensures OnMessage(env, tick, st, from, m).0.seen == Replay.Admit(REPLAY_TTL, st.seen, Arrival(tick.now, m.messageId))
  {
    hide MembersStored, Handle, Pruned;
    if m.messageId !in Pruned(st.seen, tick.now) {
      var marked := Mark(tick, st, m.messageId);
      SameMembersStored(st, marked);
      HandleLeavesSeen(env, tick, marked, from, m);
    }
  }

  lemma StoreLeavesSeen(env: Env, now: Int64, st: State, tx: Transfer, canonical: Bytes, from: PeerId)
    requires MembersStored(st)
    ensures Store(env, now, st, tx, canonical, from).0.seen == st.seen
  {
    hide Normalize, RecomputeTransfer, AddMembership, StoreOutputs, MembersStored;
  }

  lemma HandleLeavesSeen(env: Env, tick: Tick, st: State, from: PeerId, m: Message)
    requires MembersStored(st)
    ensures Handle(env, tick, st, from, m).0.seen == st.seen
  {
    hide HandleInv, HandleGet, HandleProofRequest, MembersStored, DecodeProofPayload, RecomputeTransfer, SameCore;
    hide Validate, Store, Announce, DecodedTransfer;
    QueriesSend(tick, st, from, m);
    if m.typ == TX {
      var decoded := DecodedTransfer(env, m.payload);
      if decoded.Ok? && Validate(env, tick.now, st.valueStore, decoded.value.0) == Nil {
        StoreLeavesSeen(env, tick.now, st, decoded.value.0, decoded.value.1, from);
        var (next, x, _) := Store(env, tick.now, st, decoded.value.0, decoded.value.1, from);
        AnnounceSends(tick, next, PeersExcept(next, from), m.ttl, x);
      }
    }
  }

  lemma AcceptLocalLeavesSeen(env: Env, tick: Tick, st: State, t: Transfer)
    requires MembersStored(st)
    ensures AcceptLocal(env, tick, st, t).0.seen == st.seen
  {
    hide Normalize, Validate, Store, Announce, EncodeTransfer, MembersStored, Consumable;
    var tx := Normalize(env.hash, t);
    if Validate(env, tick.now, st.valueStore, tx) == Nil && Consumable(st.consumed, tx.inputs) {
      var consumed := st.(consumed := st.consumed + Elements(tx.inputs));
      SameMembersStored(st, consumed);
      StoreLeavesSeen(env, tick.now, consumed, tx, EncodeTransfer(tx), []);
      var (next, x, _) := Store(env, tick.now, consumed, tx, EncodeTransfer(tx), []);
      AnnounceSends(tick, next, PeersExcept(next, []), LOCAL_TTL, x);
    }
  }

  lemma SharedPrefix(events: seq<Event>, n: nat)
    requires SharedClock(events) && n <= |events|
    ensures SharedClock(events[..n])
  {}

  lemma DispatchedIsHandled(env: Env, events: seq<Event>, n: nat)
    requires SharedClock(events) && n < |events| && events[n].Deliver?
    ensures |ArrivalsOf(events[..n])| < |ArrivalsOf(events)|
    ensures Dispatched(env, events, n) <==> Handled(REPLAY_TTL, ArrivalsOf(events), |ArrivalsOf(events[..n])|)
  {
    hide Run;
    ArrivalsPrefix(events, n);
    SharedPrefix(events, n);
    CacheOfRun(env, events[..n]);
  }

  /** On every run under one shared clock, a message reaches its handler iff no message with its ID
      did so within the last 60 seconds, whatever else the node did meanwhile. */
  lemma DispatchedOncePerWindow(env: Env, events: seq<Event>, n: nat)
    requires SharedClock(events) && Clocked(REPLAY_TTL, ArrivalsOf(events)) && n < |events| && events[n].Deliver?
    ensures Dispatched(env, events, n) <==>
            forall j: nat | j < n && Dispatched(env, events, j) && events[j].Deliver?
                && events[j].message.messageId == events[n].message.messageId ::
              events[j].tick.now + 60 <= events[n].tick.now
  {
    hide Run, Handled, Clocked, Dispatched, SharedClock;
    var arrivals, k := ArrivalsOf(events), |ArrivalsOf(events[..n])|;
    ArrivalsPrefix(events, n);
    DispatchedIsHandled(env, events, n);
    HandledIff(REPLAY_TTL, arrivals, k);
    if Dispatched(env, events, n) {
      forall j: nat | j < n && Dispatched(env, events, j) && events[j].Deliver? && events[j].message.messageId == events[n].message.messageId
        ensures events[j].tick.now + 60 <= events[n].tick.now
      {
        ArrivalsOrdered(events, j, n);
        ArrivalsPrefix(events, j);
        DispatchedIsHandled(env, events, j);
      }
    } else {
      var i :| 0 <= i < k && arrivals[i].id == arrivals[k].id && Handled(REPLAY_TTL, arrivals, i)
               && arrivals[i].now + REPLAY_TTL > arrivals[k].now;
      var j := EventOf(events, n, i);
      ArrivalsPrefix(events, j);
      DispatchedIsHandled(env, events, j);
    }
  }

  // ---------------------------------------------------------------------------------------
  // Replays under two clocks

  /** The n-th event is a message with this ID that gets to its handler. */
  ghost predicate Admits(env: Env, events: seq<Event>, n: nat, id: MessageId)
    requires n < |events|
  {
    Dispatched(env, events, n) && events[n].Deliver? && events[n].message.messageId == id
  }

  /** An entry made at one clock has expired on the other. */
  predicate Lapsed(made: Int64, now: Int64) {
    0 < made + 60 <= now
  }

  /** The n-th event made an entry that no later one of the first `k` has found expired. */
  ghost predicate Remembers(env: Env, events: seq<Event>, k: nat, n: nat, id: MessageId)
    requires k <= |events|
  {
    n < k && Admits(env, events, n, id) && events[n].Deliver?
    && forall j: nat | n < j < k && events[j].Deliver? :: !Lapsed(events[n].tick.cacheNow, events[j].tick.now)
  }

  lemma LapsedIsExpired(made: Int64, now: Int64)
    ensures Expired(Expiry(60, made), now) <==> Lapsed(made, now)
  {}

  lemma ApplyMarks(env: Env, st: State, e: Event)
    requires Inv(env, st) && MembersStored(st)
    ensures Apply(env, st, e).seen ==
            if !e.Deliver? then st.seen
            else if e.message.messageId in Pruned(st.seen, e.tick.now) then Pruned(st.seen, e.tick.now)
            else Pruned(st.seen, e.tick.now)[e.message.messageId := Expiry(REPLAY_TTL, e.tick.cacheNow)]
  {
    hide Inv, MembersStored, OnMessage, AcceptLocal, SeedValue, AddPeer, AddPeerID, Pruned, Expiry;
    match e {
      case Deliver(tick, from, m) => OnMessageMarks(env, tick, st, from, m);
      case Submit(tick, t) => AcceptLocalLeavesSeen(env, tick, st, t);
      case Seed(v) => SeedSteps(env, st, v);
      case Connect(p, _) => ConnectKeeps(st, p);
    }
  }

  lemma OnMessageMarks(env: Env, tick: Tick, st: State, from: PeerId, m: Message)
    requires MembersStored(st)
    ensures OnMessage(env, tick, st, from, m).0.seen ==
            if m.messageId in Pruned(st.seen, tick.now) then Pruned(st.seen, tick.now)
            else Pruned(st.seen, tick.now)[m.messageId := Expiry(REPLAY_TTL, tick.cacheNow)]
  {
    hide MembersStored, Handle, Pruned, Expiry;
    if m.messageId !in Pruned(st.seen, tick.now) {
      var marked := Mark(tick, st, m.messageId);
      SameMembersStored(st, marked);
      HandleLeavesSeen(env, tick, marked, from, m);
    }
  }

  lemma OneMoreRemembered(env: Env, events: seq<Event>, k: nat, n: nat, id: MessageId)
    requires k < |events|
    ensures Remembers(env, events, k + 1, n, id) <==>
            (n == k && Admits(env, events, k, id))
            || (Remembers(env, events, k, n, id) && events[n].Deliver?
                && (events[k].Deliver? ==> !Lapsed(events[n].tick.cacheNow, events[k].tick.now)))
  {
    hide Dispatched, Lapsed;
  }

  /** The node's clock and the cache's own clock may be unrelated: an ID is remembered iff some event made
      its entry and no later delivery found that expired, and then with the expiry of that event. */
  lemma {:induction false} CacheExact(env: Env, events: seq<Event>, k: nat, id: MessageId)
    requires k <= |events|
    ensures var seen := Run(env, events[..k]).seen;
            && (id in seen ==> exists n: nat :: Remembers(env, events, k, n, id))
            && (forall n: nat | Remembers(env, events, k, n, id) ::
                  n < k && events[n].Deliver? && id in seen && seen[id] == Expiry(60, events[n].tick.cacheNow))
    decreases k
  {
    hide Inv, MembersStored, Apply, Remembers, Lapsed, Expired, Expiry;
    if k == 0 {
      NothingRemembered(env, events, id);
    } else {
      var st, last := Run(env, events[..k - 1]), events[k - 1];
      assert events[..k] == events[..k - 1] + [last];
      CacheExact(env, events, k - 1, id);
      ApplyMarks(env, st, last);
      forall n: nat ensures Remembers(env, events, k, n, id) <==>
          (n == k - 1 && Admits(env, events, k - 1, id))
          || (Remembers(env, events, k - 1, n, id) && n < k - 1 && events[n].Deliver?
              && (last.Deliver? ==> !Lapsed(events[n].tick.cacheNow, last.tick.now))) {
        OneMoreRemembered(env, events, k - 1, n, id);
      }
      if last.Deliver? {
        forall n: nat | Remembers(env, events, k - 1, n, id)
          ensures Expired(Expiry(60, events[n].tick.cacheNow), last.tick.now) <==> Lapsed(events[n].tick.cacheNow, last.tick.now)
        {
          LapsedIsExpired(events[n].tick.cacheNow, last.tick.now);
        }
      }
    }
  }

  lemma NothingRemembered(env: Env, events: seq<Event>, id: MessageId)
    ensures (forall n: nat :: !Remembers(env, events, 0, n, id)) && Run(env, events[..0]) == NEW_NODE
  {}

  /** So, whatever the two clocks do, a message reaches its handler iff every earlier handling of its ID
      was followed by a delivery, possibly this one, that found its entry expired. */
  lemma DispatchedUnderTwoClocks(env: Env, events: seq<Event>, k: nat)
    requires k < |events| && events[k].Deliver?
    ensures Dispatched(env, events, k) <==>
            forall n: nat | n < k && Admits(env, events, n, events[k].message.messageId) :: LapsedBy(events, k, n)
  {
    hide Run, Lapsed, Expired, Expiry, Admits;
    var id := events[k].message.messageId;
    CacheExact(env, events, k, id);
    forall n: nat | n < k && events[n].Deliver?
      ensures Expired(Expiry(60, events[n].tick.cacheNow), events[k].tick.now) <==> Lapsed(events[n].tick.cacheNow, events[k].tick.now)
    {
      LapsedIsExpired(events[n].tick.cacheNow, events[k].tick.now);
    }
    forall n: nat | n < k && Admits(env, events, n, id)
      ensures LapsedBy(events, k, n) <==>
              !Remembers(env, events, k, n, id) || Lapsed(events[n].tick.cacheNow, events[k].tick.now)
    {
      AdmitsDelivery(env, events, n, id);
    }
  }

  /** A delivery after the n-th event, up to the k-th, found the entry made by the n-th expired. */
  predicate LapsedBy(events: seq<Event>, k: nat, n: nat)
    requires n < k < |events|
  {
    events[n].Deliver? && exists j: nat | n < j <= k && events[j].Deliver? :: Lapsed(events[n].tick.cacheNow, events[j].tick.now)
  }

  lemma AdmitsDelivery(env: Env, events: seq<Event>, n: nat, id: MessageId)
    requires n < |events| && Admits(env, events, n, id)
    ensures events[n].Deliver?
  {}
}
