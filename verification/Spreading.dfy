/** What in-memory delivery keeps and achieves, said of the states of all the nodes. */
module Spreading {
  import opened Bytes
  import opened Crypto
  import opened Protocol
  import opened Replay
  import opened Selection
  import opened NodeState
  import opened Coherence
  import opened Invariants
  import opened Runs
  import opened Histories
  import opened Relay
  import opened Gossip
  import Q = Quiescence

  /** The states of all the nodes at one moment. */
  type States = map<PeerId, State>

  // ---------------------------------------------------------------------------------------
  // What the recursion keeps

  /** Stores only grow; links do not change. */
  ghost predicate Evolves(a: States, b: States) {
    a.Keys == b.Keys && forall p <- a :: b[p].peers == a[p].peers && RecordsKept(a[p], b[p])
  }

  /** All that is stored, or carried by a TX message made from it, is among `ids`. */
  ghost predicate Within(env: Env, s: States, ids: set<Hash>) {
    forall p <- s :: KnownBy(env, s[p]) <= ids
  }

  predicate Fit(s: States) {
    forall p <- s, y <- s[p].txStore :: Sendable(s[p].txStore[y].tx)
  }

  /** A node object attached under an ID is that of the member with that ID. */
  predicate Wired(s: States) {
    forall p <- s, q <- s[p].peers | s[p].peers[q] :: q in s
  }

  predicate SeenBelow(s: States, next: MessageId) {
    forall p <- s, id <- s[p].seen :: id < next
  }

  ghost predicate Sound(env: Env, ids: set<Hash>, a: States, b: States) {
    Evolves(a, b) && Within(env, b, ids) && (Fit(a) ==> Fit(b))
  }

  // ---------------------------------------------------------------------------------------
  // What a successful call achieves, for a transfer `x`

  predicate Has(s: States, p: PeerId, x: Hash) {
    p in s && x in s[p].txStore
  }

  predicate Names(m: Message, x: Hash) {
    DecodeHashPayload(m.payload) == Ok(x)
  }

  predicate Offers(env: Env, x: Hash, m: Message) {
    (m.typ == INV && Names(m, x)) || x in Carried(env, m)
  }

  /** `p` has the node object of `q`, and not just its ID. */
  predicate Attached(s: States, p: PeerId, q: PeerId) {
    p in s && q in s[p].peers && s[p].peers[q]
  }

  /** Only a node that has the transfer offers it; what was asked for comes back over the asker's own link. */
  predicate Honest(env: Env, x: Hash, s: States, at: PeerId, from: PeerId, m: Message) {
    && (Offers(env, x, m) ==> Has(s, from, x))
    && (x in Carried(env, m) ==> Attached(s, at, from))
    && (m.typ == GET && Names(m, x) ==> Attached(s, from, at))
  }

  predicate PeersHave(s: States, p: PeerId, x: Hash) {
    p in s && forall q <- s[p].peers | q != [] :: Attached(s, p, q) && Has(s, q, x)
  }

  /** Whoever got the transfer passed it on to all its peers. */
  predicate PassedOn(x: Hash, a: States, b: States) {
    forall p <- b | Has(b, p, x) && !Has(a, p, x) :: PeersHave(b, p, x)
  }

  predicate Unseen(s: States, id: MessageId) {
    forall p <- s :: id !in s[p].seen
  }

  predicate Served(env: Env, x: Hash, a: States, b: States, at: PeerId, from: PeerId, m: Message) {
    && (Offers(env, x, m) ==> Has(b, at, x))
    && (m.typ == GET && Names(m, x) && Has(a, at, x) ==> Has(b, from, x))
    && PassedOn(x, a, b)
  }

  // ---------------------------------------------------------------------------------------
  // Composition

  lemma EvolvesTransitive(a: States, b: States, c: States)
    requires Evolves(a, b) && Evolves(b, c)
    ensures Evolves(a, c)
  {}

  lemma SoundTransitive(env: Env, ids: set<Hash>, a: States, b: States, c: States)
    requires Sound(env, ids, a, b) && Sound(env, ids, b, c)
    ensures Sound(env, ids, a, c)
  {
    hide Within, Fit, RecordsKept, Evolves;
    EvolvesTransitive(a, b, c);
  }

  lemma HasGrows(a: States, b: States, p: PeerId, x: Hash)
    requires Evolves(a, b) && Has(a, p, x)
    ensures Has(b, p, x)
  {}

  lemma PassedOnTransitive(x: Hash, a: States, b: States, c: States)
    requires Evolves(a, b) && Evolves(b, c) && PassedOn(x, a, b) && PassedOn(x, b, c)
    ensures PassedOn(x, a, c)
  {
    forall p | p in c && Has(c, p, x) && !Has(a, p, x) ensures PeersHave(c, p, x) {
      if Has(b, p, x) {
        assert PeersHave(b, p, x);
        forall q | q in c[p].peers && q != [] ensures Attached(c, p, q) && Has(c, q, x) {
          HasGrows(b, c, q, x);
        }
      }
    }
  }

  lemma MissingNoMore(env: Env, ids: set<Hash>, a: States, b: States)
    requires Evolves(a, b)
    ensures |Missing(b, ids)| <= |Missing(a, ids)|
  {
    hide Missing;
    MissingGrows(a, ids, b, ids, {});
  }

  /** Nothing about `x` changed between the two. */
  ghost predicate SameHolders(x: Hash, a: States, b: States) {
    forall p :: Has(b, p, x) <==> Has(a, p, x)
  }

  lemma Lift(env: Env, ids: set<Hash>, x: Hash, a: States, b: States)
    requires Sound(env, ids, a, b) && SameHolders(x, a, b)
    ensures Within(env, b, ids) && |Missing(b, ids)| <= |Missing(a, ids)| && (Fit(a) ==> Fit(b))
    ensures forall at, from, m :: Honest(env, x, a, at, from, m) ==> Honest(env, x, b, at, from, m)
  {
    hide Missing, Within, Fit, Has, Offers, RecordsKept, Names, Carried;
    MissingNoMore(env, ids, a, b);
  }

  lemma LiftServed(env: Env, ids: set<Hash>, x: Hash, a: States, b: States, c: States, at: PeerId, from: PeerId, m: Message)
    requires Sound(env, ids, a, b) && SameHolders(x, a, b) && Sound(env, ids, b, c)
    ensures Sound(env, ids, a, c)
    ensures Served(env, x, b, c, at, from, m) ==> Served(env, x, a, c, at, from, m)
  {
    hide Within, Fit, Evolves, Has, Offers, PeersHave, Names;
    SoundTransitive(env, ids, a, b, c);
  }

  lemma NothingChanged(env: Env, ids: set<Hash>, x: Hash, s: States)
    requires Within(env, s, ids)
    ensures Sound(env, ids, s, s) && PassedOn(x, s, s)
  {
    hide Within, Fit;
    SelfKept();
  }

  lemma CarriesNothing(env: Env, m: Message)
    requires m.typ != TX
    ensures Carried(env, m) == {}
  {}

  /** A message that is not about spreading transfers. */
  lemma Unanswered(env: Env, ids: set<Hash>, x: Hash, s: States, at: PeerId, from: PeerId, m: Message)
    requires Within(env, s, ids) && m.typ != INV && m.typ != GET && m.typ != TX
    ensures Sound(env, ids, s, s) && Served(env, x, s, s, at, from, m)
  {
    hide Within, Fit, Evolves, Has, PeersHave, Names;
    NothingChanged(env, ids, x, s);
    CarriesNothing(env, m);
  }

  // ---------------------------------------------------------------------------------------
  // One node changes

  /** Everything but the records may change. */
  lemma RecordsSame(env: Env, ids: set<Hash>, x: Hash, s: States, at: PeerId, r: State)
    requires at in s && r.txStore == s[at].txStore && r.peers == s[at].peers && Within(env, s, ids)
    ensures Sound(env, ids, s, s[at := r]) && PassedOn(x, s, s[at := r])
    ensures SameHolders(x, s, s[at := r])
  {
    hide CarriedBy, Sendable;
    assert KnownBy(env, r) == KnownBy(env, s[at]);
  }

  lemma QuietSame(env: Env, ids: set<Hash>, x: Hash, s: States, at: PeerId, r: State)
    requires at in s && Quiet(s[at], r) && r.peers == s[at].peers && Within(env, s, ids)
    ensures Sound(env, ids, s, s[at := r]) && PassedOn(x, s, s[at := r])
    ensures SameHolders(x, s, s[at := r])
  {
    hide CarriedBy, Sendable;
    var st := s[at];
    KnownKept(env, st, r, {});
    assert forall y <- st.txStore :: r.txStore[y].tx == st.txStore[y].tx;
  }

  /** Exactly `at` may have come to hold `y`. */
  ghost predicate Gained(a: States, b: States, at: PeerId, y: Hash) {
    forall p, z :: Has(b, p, z) <==> Has(a, p, z) || (p == at && z == y)
  }

  lemma GrewRecords(now: Int64, st: State, r: State, tx: Transfer)
    requires Grew(now, st, r, tx)
    ensures RecordsKept(st, r) && tx.id !in st.txStore && r.txStore.Keys == st.txStore.Keys + {tx.id} && r.txStore[tx.id].tx == tx
    ensures forall y <- st.txStore :: r.txStore[y].tx == st.txStore[y].tx
  {
    hide MemberAdded, StoreOutputs;
  }

  lemma GrewSame(env: Env, ids: set<Hash>, now: Int64, s: States, at: PeerId, r: State, tx: Transfer)
    requires at in s && Grew(now, s[at], r, tx) && r.peers == s[at].peers && Within(env, s, ids)
    requires {tx.id} + CarriedBy(env, tx) <= ids
    ensures Evolves(s, s[at := r]) && Within(env, s[at := r], ids) && (Fit(s) && Sendable(tx) ==> Fit(s[at := r]))
    ensures |Missing(s[at := r], ids)| < |Missing(s, ids)|
    ensures Gained(s, s[at := r], at, tx.id)
  {
    hide CarriedBy, Sendable, Grew, Missing, KnownBy, RecordsKept, Fit;
    GrewRecords(now, s[at], r, tx);
    KnownKept(env, s[at], r, {tx.id} + CarriedBy(env, tx));
    MissingShrinks(s, ids, s[at := r], ids, at, tx.id);
    assert Evolves(s, s[at := r]) by {
      SelfKept();
    }
    forall p, x ensures Has(s[at := r], p, x) <==> Has(s, p, x) || (p == at && x == tx.id) {
      assert x in r.txStore <==> x in s[at].txStore || x == tx.id;
    }
    if Fit(s) && Sendable(tx) {
      FitReplaced(s, at, r, tx);
    }
  }

  lemma SelfKept()
    ensures forall st :: RecordsKept(st, st)
  {}

  lemma FitReplaced(s: States, at: PeerId, r: State, tx: Transfer)
    requires at in s && Fit(s) && Sendable(tx)
    requires forall y <- r.txStore :: r.txStore[y].tx == tx || (y in s[at].txStore && r.txStore[y].tx == s[at].txStore[y].tx)
    ensures Fit(s[at := r])
  {
    hide Sendable;
  }

  lemma RecordCarries(env: Env, s: States, p: PeerId, y: Hash, id: MessageId, now: Int64, ttl: Int64)
    requires p in s && Inv(env, s[p]) && y in s[p].txStore && Fit(s)
    ensures Carried(env, NewTx(id, now, ttl, s[p].txStore[y].tx)) == {y}
  {
    var tx := s[p].txStore[y].tx;
    assert RecordAddressed(env, y, s[p].txStore[y]);
    hide Cached, Indexed, Numbered, Evident, EncodeTransfer, CarriedBy, Carried, Sendable, Normalize;
    SendableCarriesItself(env, tx);
    CarriesWhatItIsMadeFrom(env, id, now, ttl, tx);
  }

  lemma RecordWithin(env: Env, s: States, p: PeerId, y: Hash, ids: set<Hash>, id: MessageId, now: Int64, ttl: Int64)
    requires p in s && y in s[p].txStore && Within(env, s, ids)
    ensures Carried(env, NewTx(id, now, ttl, s[p].txStore[y].tx)) <= ids
  {
    var tx := s[p].txStore[y].tx;
    CarriesWhatItIsMadeFrom(env, id, now, ttl, tx);
    hide Carried, CarriedBy;
    forall z | z in CarriedBy(env, tx) ensures z in ids {
      assert z in {y} + CarriedBy(env, s[p].txStore[y].tx);
      assert z in KnownBy(env, s[p]);
    }
  }

  lemma StillWired(s: States, at: PeerId, r: State)
    requires at in s && Wired(s) && r.peers == s[at].peers
    ensures Wired(s[at := r])
    ensures forall n :: SeenBelow(s, n) && r.seen == s[at].seen ==> SeenBelow(s[at := r], n)
  {}

  lemma AttachedKnown(s: States, p: PeerId, q: PeerId)
    requires Wired(s) && p in s && q in s[p].peers && s[p].peers[q]
    ensures q in s
  {}

  lemma NextIsUnseen(s: States, next: MessageId)
    requires SeenBelow(s, next)
    ensures Unseen(s, next) && SeenBelow(s, next + 1)
  {}

  lemma StillBelow(s: States, at: PeerId, r: State, id: MessageId, tick: Tick)
    requires at in s && (r == Mark(tick, s[at], id) || r == s[at].(seen := Pruned(s[at].seen, tick.now)))
    ensures forall n :: SeenBelow(s, n) && id < n ==> SeenBelow(s[at := r], n)
  {}

  // ---------------------------------------------------------------------------------------
  // Accepting and announcing

  /** A transfer that was decoded and found valid is stored. */
  lemma TxStored(env: Env, ids: set<Hash>, x: Hash, now: Int64, s: States, at: PeerId, from: PeerId, m: Message, r: State)
    requires at in s && Inv(env, s[at]) && MembersStored(s[at]) && Within(env, s, ids) && Carried(env, m) <= ids && m.typ == TX
    requires DecodedTransfer(env, m.payload).Ok?
    requires var (tx, canonical) := DecodedTransfer(env, m.payload).value;
             Validate(env, now, s[at].valueStore, tx) == Nil && r == Store(env, now, s[at], tx, canonical, from).0
    ensures var tx := DecodedTransfer(env, m.payload).value.0;
            && Sound(env, ids, s, s[at := r])
            && Gained(s, s[at := r], at, tx.id)
            && (tx.id !in s[at].txStore ==> |Missing(s[at := r], ids)| < |Missing(s, ids)|)
            && Carried(env, m) == {tx.id}
            && (tx.id in s[at].txStore ==> PassedOn(x, s, s[at := r]))
  {
    hide Inv, MembersStored, Within, Validate, Store, DecodedTransfer, Has, Missing, Fit, Quiet, Grew, CarriedBy;
    hide Sendable, Normalize, EncodeTransfer;
    hide Evolves, Sized;
    var (tx, canonical) := DecodedTransfer(env, m.payload).value;
    DecodedTransferFacts(env, m.payload);
    DecodedIsSendable(env, m.payload);
    StoreLeaves(env, now, s[at], tx, canonical, from);
    StoreQuietOrGrew(env, now, s[at], tx, canonical, from);
    if tx.id in s[at].txStore {
      QuietSame(env, ids, x, s, at, r);
      SameHas(s, at, r, tx.id);
    } else {
      GrewSame(env, ids, now, s, at, r, tx);
    }
  }

  lemma SameHas(s: States, at: PeerId, r: State, y: Hash)
    requires at in s && Quiet(s[at], r) && y in s[at].txStore
    ensures Gained(s, s[at := r], at, y)
  {
    forall p, z ensures Has(s[at := r], p, z) <==> Has(s, p, z) || (p == at && z == y) {
      assert z in r.txStore <==> z in s[at].txStore;
    }
  }

  /** A valid local transfer is stored. */
  lemma LocallyStored(env: Env, ids: set<Hash>, x: Hash, now: Int64, s: States, at: PeerId, tx: Transfer, r: State)
    requires at in s && Inv(env, s[at]) && MembersStored(s[at]) && Within(env, s, ids) && {tx.id} + CarriedBy(env, tx) <= ids
    requires tx == Normalize(env.hash, tx) && Validate(env, now, s[at].valueStore, tx) == Nil
    requires r == Store(env, now, s[at], tx, EncodeTransfer(tx), []).0
    ensures Evolves(s, s[at := r]) && Within(env, s[at := r], ids) && Gained(s, s[at := r], at, tx.id)
    ensures Fit(s) && Sendable(tx) ==> Fit(s[at := r])
  {
    hide Inv, MembersStored, Within, Validate, Store, Has, Missing, Fit, Quiet, Grew, CarriedBy, Sendable, Normalize;
    hide EncodeTransfer;
    hide Evolves;
    StoreLeaves(env, now, s[at], tx, EncodeTransfer(tx), []);
    StoreQuietOrGrew(env, now, s[at], tx, EncodeTransfer(tx), []);
    if tx.id in s[at].txStore {
      QuietSame(env, ids, x, s, at, r);
      SameHas(s, at, r, tx.id);
    } else {
      GrewSame(env, ids, now, s, at, r, tx);
    }
  }

  /** Everything known now or brought by `tx`. */
  lemma Universe(env: Env, s: States, tx: Transfer) returns (ids: set<Hash>)
    ensures Within(env, s, ids) && {tx.id} + CarriedBy(env, tx) <= ids
  {
    hide KnownBy, CarriedBy;
    ids := Known(env, s) + {tx.id} + CarriedBy(env, tx);
    forall p, y | p in s && y in KnownBy(env, s[p]) ensures y in ids {
      assert y in Known(env, s);
    }
  }

  lemma SendableNormalized(hash: Hasher, t: Transfer)
    ensures Sendable(t) ==> Sendable(Normalize(hash, t))
  {
    hide EncodeTransfer, Sized, Normalize;
    EncodingIgnoresIDs(hash, t);
    NormalizeKeepsSignature(hash, t);
  }

  lemma LocalEvolves(env: Env, ids: set<Hash>, x: Hash, a: States, b: States, c: States, at: PeerId)
    requires Evolves(a, b) && Sound(env, ids, b, c) && Gained(a, b, at, x) && at in a
    ensures Evolves(a, c) && Has(b, at, x) && Has(c, at, x) && at in b && b[at].peers == a[at].peers
  {
    hide Within, Fit, RecordsKept, Has;
    EvolvesTransitive(a, b, c);
    assert Has(b, at, x);
    HasGrows(b, c, at, x);
  }

  /** When nobody had it, and `at` stored it and told its peers, whoever has it has passed it on. */
  lemma AllPassedOn(env: Env, ids: set<Hash>, x: Hash, a: States, b: States, c: States, at: PeerId, tos: seq<PeerId>)
    requires at in a && Evolves(a, b) && Sound(env, ids, b, c) && Gained(a, b, at, x) && PassedOn(x, b, c) && AllHave(c, tos, x, x)
    requires (forall p :: !Has(a, p, x)) && (forall q <- a[at].peers | q != [] :: q in tos) && AllAttached(b, at, tos)
    ensures forall p :: Has(c, p, x) ==> PeersHave(c, p, x)
  {
    hide Within, Fit, Has, RecordsKept;
    forall p | Has(c, p, x) ensures PeersHave(c, p, x) {
      HolderKnown(c, p, x);
      if Has(b, p, x) {
        assert p == at;
      }
    }
  }

  predicate AllAttached(s: States, at: PeerId, told: seq<PeerId>) {
    forall q <- told :: Attached(s, at, q)
  }

  lemma HolderKnown(s: States, p: PeerId, x: Hash)
    requires Has(s, p, x)
    ensures p in s
  {}

  predicate Neighbours(s: States, p: PeerId, q: PeerId) {
    p in s && q in s[p].peers && q != []
  }

  /** A walk along peer links. */
  predicate Walk(s: States, path: seq<PeerId>) {
    path != [] && forall i | 0 <= i < |path| - 1 :: Neighbours(s, path[i], path[i + 1])
  }

  lemma {:induction false} WalkHas(s: States, x: Hash, path: seq<PeerId>, n: nat)
    requires (forall p :: Has(s, p, x) ==> PeersHave(s, p, x)) && Walk(s, path) && Has(s, path[0], x) && n < |path|
    ensures Has(s, path[n], x)
    decreases n
  {
    if n > 0 {
      WalkHas(s, x, path, n - 1);
      assert Neighbours(s, path[n - 1], path[n]) && PeersHave(s, path[n - 1], x);
    }
  }

  /** Everyone reachable from `at` has the transfer. */
  ghost predicate Reached(s: States, at: PeerId, x: Hash) {
    forall path: seq<PeerId>, v | Walk(s, path) && path[0] == at && v in path :: Has(s, v, x)
  }

  lemma AllReached(s: States, at: PeerId, x: Hash)
    requires (forall p :: Has(s, p, x) ==> PeersHave(s, p, x)) && Has(s, at, x)
    ensures Reached(s, at, x)
  {
    hide Has, PeersHave;
    forall path: seq<PeerId>, v | Walk(s, path) && path[0] == at && v in path ensures Has(s, v, x) {
      var n :| 0 <= n < |path| && path[n] == v;
      WalkHas(s, x, path, n);
    }
  }

  /** `at` has just stored the transfer that `from` sent, and told its other peers. */
  lemma TxServed(
      env: Env, ids: set<Hash>, x: Hash, a: States, b: States, c: States, at: PeerId, from: PeerId, m: Message, y: Hash, tos: seq<PeerId>)
    requires Sound(env, ids, a, b) && Sound(env, ids, b, c) && at in a && m.typ == TX && Carried(env, m) == {y}
    requires Gained(a, b, at, y) && (forall q <- a[at].peers | q != from :: q in tos)
    requires Honest(env, x, a, at, from, m) && PassedOn(x, b, c) && AllHave(c, tos, x, y) && AllAttached(b, at, tos)
    ensures Served(env, x, a, c, at, from, m)
  {
    hide Within, Fit, Has, Carried, Names, RecordsKept;
    EvolvesTransitive(a, b, c);
    forall p | p in c && Has(c, p, x) && !Has(a, p, x) ensures PeersHave(c, p, x) {
      if Has(b, p, x) {
        forall q | q in c[p].peers && q != [] ensures Attached(c, p, q) && Has(c, q, x) {
          if q == from {
            HasGrows(a, c, q, x);
          }
        }
      }
    }
    if x == y {
      assert Has(b, at, x);
      HasGrows(b, c, at, x);
    }
  }

  lemma TellsTheRest(st: State, skip: PeerId, tos: seq<PeerId>)
    requires tos == PeersExcept(st, skip)
    ensures forall q :: q in tos <==> q in st.peers && q != skip
  {
    forall q ensures q in tos <==> q in st.peers && q != skip {
      PeerListed(st, skip, q);
    }
  }

  lemma HeldNow(env: Env, ids: set<Hash>, a: States, b: States, at: PeerId, y: Hash)
    requires Sound(env, ids, a, b) && Gained(a, b, at, y) && at in a
    ensures Within(env, b, ids) && Has(b, at, y) && (Fit(a) ==> Fit(b)) && at in b
    ensures b[at].peers == a[at].peers
  {}

  /** A copy of a transfer that was there already. */
  lemma CopyServed(env: Env, x: Hash, a: States, b: States, at: PeerId, from: PeerId, m: Message, y: Hash)
    requires m.typ == TX && Carried(env, m) == {y} && Gained(a, b, at, y) && PassedOn(x, a, b)
    ensures Served(env, x, a, b, at, from, m)
  {
    hide Carried, Names, Has, PassedOn;
    assert Has(b, at, y);
  }

  predicate AllHave(s: States, told: seq<PeerId>, x: Hash, y: Hash) {
    y == x ==> forall p <- told :: Has(s, p, x)
  }

  lemma AllHaveGrows(a: States, b: States, told: seq<PeerId>, x: Hash, y: Hash)
    requires Evolves(a, b) && AllHave(a, told, x, y)
    ensures AllHave(b, told, x, y)
  {
    hide Has, Evolves;
    if y == x {
      forall p | p in told ensures Has(b, p, x) {
        HasGrows(a, b, p, x);
      }
    }
  }

  lemma NoneTold(s: States, x: Hash, y: Hash)
    ensures AllHave(s, [], x, y)
  {}

  lemma Announcing(env: Env, ids: set<Hash>, x: Hash, a: States, b: States, at: PeerId)
    requires Sound(env, ids, a, b)
    ensures |Missing(b, ids)| <= |Missing(a, ids)| && Within(env, b, ids) && (Fit(a) ==> Fit(b))
    ensures Has(a, at, x) ==> Has(b, at, x)
  {
    hide Within, Fit, Missing;
    MissingNoMore(env, ids, a, b);
  }

  lemma OneMoreTold(env: Env, ids: set<Hash>, x: Hash, a: States, b: States, c: States, told: seq<PeerId>, q: PeerId, y: Hash)
    requires Sound(env, ids, a, b) && Sound(env, ids, b, c)
    ensures PassedOn(x, a, b) && PassedOn(x, b, c) ==> PassedOn(x, a, c)
    ensures AllHave(b, told, x, y) && (y == x ==> Has(c, q, x)) ==> AllHave(c, told + [q], x, y)
  {
    hide Within, Fit, Evolves, PassedOn, Has;
    if PassedOn(x, a, b) && PassedOn(x, b, c) {
      PassedOnTransitive(x, a, b, c);
    }
    if AllHave(b, told, x, y) && (y == x ==> Has(c, q, x)) && y == x {
      forall p | p in told + [q] ensures Has(c, p, x) {
        if p in told {
          HasGrows(b, c, p, x);
        }
      }
    }
  }

  // ---------------------------------------------------------------------------------------
  // When nothing can go wrong but an unattached peer

  /** What a flood is watched with: the transfers that can still spread, one of them with what its
      inputs are, and a set of nodes. */
  datatype Watch = Watch(ids: set<Hash>, target: Q.Target, reach: set<PeerId>)

  function Watched(w: Watch): Hash {
    w.target.tx.id
  }

  type Clock = (PeerId, MessageId) -> Int64

  /** What a handler step reads when `next` is the next message ID. */
  function TickAt(clock: Clock, cacheClock: MessageId -> Int64, at: PeerId, next: MessageId): (tick: Tick)
    ensures tick.now == clock(at, next)
  {
    Tick(clock(at, next), cacheClock(next), (_: nat) => next, _ => true)
  }

  /** The nodes in reach accept the target at any time, and the peers attached to them are in reach. */
  ghost predicate Ready(env: Env, w: Watch, clock: Clock, s: States) {
    && Q.Deliverable(env, w.target)
    && (forall p: PeerId, n: MessageId | p in w.reach :: Q.Unexpired(w.target, clock(p, n)))
    && (forall p <- w.reach :: p in s && Q.Prepared(env, w.target, s[p]))
    && (forall p: PeerId, q: PeerId | p in w.reach && Attached(s, p, q) :: q in w.reach)
  }

  /** All links of the nodes in reach are attached at both ends. */
  predicate Mutual(w: Watch, s: States) {
    forall p <- w.reach :: p in s && forall q <- s[p].peers :: Attached(s, p, q) && Attached(s, q, p)
  }

  predicate About(env: Env, w: Watch, m: Message) {
    Q.IsInv(w.target, m) || Q.IsGet(w.target, m) || Q.IsSignedTx(env, w.target, m)
  }

  predicate Went(out: Outcome) {
    out == Nil || out == Failed(UnknownPeer)
  }

  /** In a ready cluster a call at `at` about the target fails, if at all, on an unattached peer; and
      not when all links are mutual. */
  ghost predicate Smooth(env: Env, w: Watch, clock: Clock, a: States, b: States, at: PeerId, peer: PeerId, m: Message, out: Outcome) {
    About(env, w, m) && Ready(env, w, clock, a) && at in w.reach ==>
      && Went(out) && Ready(env, w, clock, b)
      && (at in a && Mutual(w, a) && peer in a[at].peers ==> out == Nil)
  }

  /** The same for announcing `y`. */
  ghost predicate SmoothAll(env: Env, w: Watch, clock: Clock, a: States, b: States, at: PeerId, tos: seq<PeerId>, y: Hash, out: Outcome) {
    y == Watched(w) && Ready(env, w, clock, a) && at in w.reach ==>
      && Went(out) && Ready(env, w, clock, b)
      && (at in a && Mutual(w, a) && (forall q <- tos :: q in a[at].peers) ==> out == Nil)
  }

  /** Readiness and mutual links are not lost. */
  ghost predicate Steady(env: Env, w: Watch, clock: Clock, a: States, b: States) {
    (Ready(env, w, clock, a) ==> Ready(env, w, clock, b)) && (Mutual(w, a) ==> Mutual(w, b))
  }

  lemma AttachedStays(a: States, b: States)
    requires Evolves(a, b)
    ensures forall p, q :: Attached(b, p, q) <==> Attached(a, p, q)
  {
    hide RecordsKept;
  }

  lemma MutualStays(w: Watch, a: States, b: States)
    requires Evolves(a, b) && Mutual(w, a)
    ensures Mutual(w, b)
  {
    hide RecordsKept;
    AttachedStays(a, b);
  }

  lemma ReplacedReady(env: Env, w: Watch, clock: Clock, s: States, at: PeerId, r: State)
    requires at in s && r.peers == s[at].peers
    requires Ready(env, w, clock, s) && at in w.reach ==> Q.Prepared(env, w.target, r)
    ensures Steady(env, w, clock, s, s[at := r])
  {
    hide Q.Deliverable, Q.Unexpired, Q.Prepared;
    assert forall p, q :: Attached(s[at := r], p, q) <==> Attached(s, p, q);
  }

  /** Logging, marking and consuming. */
  lemma RecordsSteady(env: Env, w: Watch, clock: Clock, s: States, at: PeerId, r: State)
    requires at in s && r.txStore == s[at].txStore && r.valueStore == s[at].valueStore && r.peers == s[at].peers
    ensures Steady(env, w, clock, s, s[at := r])
  {
    hide Q.Deliverable, Q.Unexpired, Q.Prepared, Attached;
    if Ready(env, w, clock, s) && at in w.reach {
      Q.PreparedFrame(env, w.target, s[at], r);
    }
    ReplacedReady(env, w, clock, s, at, r);
  }

  lemma LiftSmooth(env: Env, w: Watch, clock: Clock, a: States, b: States, c: States, at: PeerId, peer: PeerId, m: Message, out: Outcome)
    requires Steady(env, w, clock, a, b) && Evolves(a, b) && Smooth(env, w, clock, b, c, at, peer, m, out)
    ensures Smooth(env, w, clock, a, c, at, peer, m, out)
  {
    hide Ready, Mutual, About, RecordsKept;
  }

  /** The receiver's call is the sender's. */
  lemma SendSmooth(env: Env, w: Watch, clock: Clock, a: States, b: States, c: States, at: PeerId, to: PeerId, m: Message, out: Outcome)
    requires Steady(env, w, clock, a, b) && Evolves(a, b) && at in a && Attached(b, at, to)
    requires Smooth(env, w, clock, b, c, to, at, m, out)
    ensures Smooth(env, w, clock, a, c, at, to, m, out)
  {
    hide About, RecordsKept, Q.Deliverable, Q.Unexpired, Q.Prepared;
    AttachedStays(a, b);
  }

  lemma RefusedSmooth(env: Env, w: Watch, clock: Clock, a: States, b: States, at: PeerId, to: PeerId, m: Message)
    requires Steady(env, w, clock, a, b) && !Attached(a, at, to)
    ensures Smooth(env, w, clock, a, b, at, to, m, Failed(UnknownPeer))
  {
    hide About, Ready;
  }

  lemma UnchangedSmooth(env: Env, w: Watch, clock: Clock, s: States, at: PeerId, peer: PeerId, m: Message)
    ensures Smooth(env, w, clock, s, s, at, peer, m, Nil)
  {
    hide About, Ready, Mutual;
  }

  /** A reply about the target is as good as the message it answers. */
  lemma ReplySmooth(
      env: Env, w: Watch, clock: Clock, a: States, b: States, at: PeerId, peer: PeerId, m: Message, reply: Message, out: Outcome)
    requires About(env, w, m) && Ready(env, w, clock, a) && at in w.reach ==> About(env, w, reply)
    requires Smooth(env, w, clock, a, b, at, peer, reply, out)
    ensures Smooth(env, w, clock, a, b, at, peer, m, out)
  {
    hide About, Ready, Mutual;
  }

  lemma NotAbout(env: Env, w: Watch, clock: Clock, a: States, b: States, at: PeerId, peer: PeerId, m: Message, out: Outcome)
    requires !About(env, w, m)
    ensures Smooth(env, w, clock, a, b, at, peer, m, out)
  {
    hide About, Ready, Mutual;
  }

  /** What a message about the target is, by its type. */
  lemma AboutType(env: Env, w: Watch, m: Message)
    ensures About(env, w, m) ==> m.typ == INV || m.typ == GET || m.typ == TX
    ensures (m.typ == INV || m.typ == GET) && Names(m, Watched(w)) ==> About(env, w, m)
    ensures (m.typ == INV || m.typ == GET) && About(env, w, m) ==> Names(m, Watched(w))
    ensures m.typ == TX && About(env, w, m) ==> Q.IsSignedTx(env, w.target, m)
  {
    hide Q.SignedBy, DecodedTransfer;
  }

  /** A GET for the target is answered with the signed target. */
  lemma AnswerAbout(env: Env, w: Watch, clock: Clock, s: States, at: PeerId, m: Message, tick: Tick, id: MessageId)
    requires at in s && Inv(env, s[at]) && m.typ == GET && DecodeHashPayload(m.payload).Ok?
    requires DecodeHashPayload(m.payload).value in s[at].txStore
    ensures About(env, w, m) && Ready(env, w, clock, s) && at in w.reach ==>
              About(env, w, NewTx(id, tick.now, m.ttl, s[at].txStore[DecodeHashPayload(m.payload).value].tx))
  {
    hide Inv, DecodeHashPayload, NewTx, Q.Deliverable, Q.Unexpired, Q.Prepared, Q.IsSignedTx, Attached;
    AboutType(env, w, m);
    if About(env, w, m) && Ready(env, w, clock, s) && at in w.reach {
      Q.InvAddressed(env, s[at]);
      Q.RecordArrives(env, w.target, tick, s[at], Watched(w), id, m.ttl);
    }
  }

  /** A signed target is decoded and found valid at a ready node. */
  lemma TargetAccepted(env: Env, w: Watch, clock: Clock, s: States, at: PeerId, m: Message, n: MessageId)
    requires at in s && Inv(env, s[at]) && m.typ == TX
    requires About(env, w, m) && Ready(env, w, clock, s) && at in w.reach
    ensures DecodedTransfer(env, m.payload).Ok?
    ensures Validate(env, clock(at, n), s[at].valueStore, DecodedTransfer(env, m.payload).value.0) == Nil
  {
    hide Inv, Validate, DecodedTransfer, Q.Deliverable, Q.Unexpired, Q.Prepared, Q.SignedBy, Attached;
    AboutType(env, w, m);
    Q.InvAddressed(env, s[at]);
    Q.DecodedAccepted(env, w.target, clock(at, n), s[at], m.payload);
  }

  /** Storing a received transfer leaves a ready node ready. */
  lemma StoredReady(env: Env, w: Watch, clock: Clock, s: States, at: PeerId, from: PeerId, m: Message, n: MessageId, r: State)
    requires at in s && Inv(env, s[at]) && MembersStored(s[at]) && DecodedTransfer(env, m.payload).Ok?
    requires var (tx, canonical) := DecodedTransfer(env, m.payload).value;
             && Validate(env, clock(at, n), s[at].valueStore, tx) == Nil
             && r == Store(env, clock(at, n), s[at], tx, canonical, from).0
    ensures Steady(env, w, clock, s, s[at := r])
  {
    hide Inv, MembersStored, Validate, Store, DecodedTransfer, Quiet, Grew, Sendable, Normalize, EncodeTransfer, Sized;
    hide Q.Deliverable, Q.Unexpired, Q.Prepared, Q.SignedBy, Attached, CarriedBy;
    var (tx, canonical) := DecodedTransfer(env, m.payload).value;
    DecodedTransferFacts(env, m.payload);
    DecodedIsSendable(env, m.payload);
    StoreLeaves(env, clock(at, n), s[at], tx, canonical, from);
    StoreQuietOrGrew(env, clock(at, n), s[at], tx, canonical, from);
    if Ready(env, w, clock, s) && at in w.reach {
      Q.InvAddressed(env, s[at]);
      if tx.id in s[at].txStore {
        Q.QuietPrepared(env, w.target, s[at], r);
      } else {
        if tx.id == Watched(w) {
          Q.DecodedAccepted(env, w.target, clock(at, n), s[at], m.payload);
        }
        Q.GrewPrepared(env, w.target, clock(at, n), s[at], r, tx);
      }
    }
    ReplacedReady(env, w, clock, s, at, r);
  }

  /** Storing a local transfer does too. */
  lemma LocalReady(env: Env, w: Watch, clock: Clock, s: States, at: PeerId, n: MessageId, tx: Transfer, r: State)
    requires at in s && Inv(env, s[at]) && MembersStored(s[at]) && tx == Normalize(env.hash, tx) && Sendable(tx)
    requires Validate(env, clock(at, n), s[at].valueStore, tx) == Nil
    requires r == Store(env, clock(at, n), s[at], tx, EncodeTransfer(tx), []).0
    ensures Steady(env, w, clock, s, s[at := r])
  {
    hide Inv, MembersStored, Validate, Store, Quiet, Grew, Normalize, EncodeTransfer, Sized;
    hide Q.Deliverable, Q.Unexpired, Q.Prepared, Q.SignedBy, Attached;
    NormalizedID(env.hash, tx);
    StoreLeaves(env, clock(at, n), s[at], tx, EncodeTransfer(tx), []);
    StoreQuietOrGrew(env, clock(at, n), s[at], tx, EncodeTransfer(tx), []);
    if Ready(env, w, clock, s) && at in w.reach {
      Q.InvAddressed(env, s[at]);
      if tx.id in s[at].txStore {
        Q.QuietPrepared(env, w.target, s[at], r);
      } else {
        if tx.id == Watched(w) {
          Q.AcceptedIffSigned(env, w.target, clock(at, n), s[at], tx);
        }
        Q.GrewPrepared(env, w.target, clock(at, n), s[at], r, tx);
      }
    }
    ReplacedReady(env, w, clock, s, at, r);
  }

  /** The peers told after storing are peers of the node, so the announcement decides the outcome. */
  lemma AnnouncedSmooth(
      env: Env, w: Watch, clock: Clock, a: States, b: States, c: States, at: PeerId, from: PeerId, m: Message, y: Hash,
      tos: seq<PeerId>, out: Outcome)
    requires Steady(env, w, clock, a, b) && Evolves(a, b) && at in a && m.typ == TX && Carried(env, m) == {y}
    requires (forall q <- tos :: q in b[at].peers) && SmoothAll(env, w, clock, b, c, at, tos, y, out)
    ensures Smooth(env, w, clock, a, c, at, from, m, out)
  {
    hide Ready, Mutual, RecordsKept, Q.SignedBy, DecodedTransfer;
    AboutType(env, w, m);
  }

  lemma NoneSmooth(env: Env, w: Watch, clock: Clock, s: States, at: PeerId, y: Hash)
    ensures SmoothAll(env, w, clock, s, s, at, [], y, Nil)
  {
    hide Ready, Mutual;
  }

  /** One more peer told, or the first failure. */
  lemma OneMoreSmooth(
      env: Env, w: Watch, clock: Clock, a: States, b: States, c: States, at: PeerId, tos: seq<PeerId>, i: nat, y: Hash, out: Outcome)
    requires i < |tos| && Evolves(a, b) && at in a
    requires SmoothAll(env, w, clock, a, b, at, tos[..i], y, Nil) && SmoothAll(env, w, clock, b, c, at, [tos[i]], y, out)
    ensures SmoothAll(env, w, clock, a, c, at, tos[..i + 1], y, out)
    ensures out.Failed? ==> SmoothAll(env, w, clock, a, c, at, tos, y, out)
  {
    hide Ready, Mutual, RecordsKept;
    if Mutual(w, a) {
      MutualStays(w, a, b);
    }
    assert tos[i] in tos && tos[i] in tos[..i + 1];
  }

  // ---------------------------------------------------------------------------------------
  // Whole effects of the calls that do not spread

  /** `at` has logged a message to `to`. */
  function Logged(s: States, at: PeerId, to: PeerId, m: Message): States {
    if at in s then s[at := s[at].(sent := s[at].sent + [SentMessage(to, m)])] else s
  }

  /** `at` has received a message that makes it send nothing. */
  ghost function Received(env: Env, tick: Tick, s: States, at: PeerId, from: PeerId, m: Message): (States, Outcome) {
    if at in s && MembersStored(s[at]) then
      var (r, out) := OnMessage(env, tick, s[at], from, m);
      (s[at := r], out)
    else (s, Nil)
  }

  ghost function HandledBy(env: Env, tick: Tick, s: States, at: PeerId, from: PeerId, m: Message): (States, Outcome) {
    if at in s && MembersStored(s[at]) then
      var (r, out) := Handle(env, tick, s[at], from, m);
      (s[at := r], out)
    else (s, Nil)
  }

  ghost function StoredBy(env: Env, now: Int64, s: States, at: PeerId, tx: Transfer, canonical: Bytes, from: PeerId): States {
    if at in s && MembersStored(s[at]) then s[at := Store(env, now, s[at], tx, canonical, from).0] else s
  }

  /** `at` answers a proof request with what it knows, under the message ID `next`, over its own link to
      the asker, who records the answer. */
  ghost function Answered(
      env: Env, clock: Clock, cacheClock: MessageId -> Int64, next: MessageId, s: States, at: PeerId, from: PeerId, m: Message)
    : (States, Outcome)
  {
    match DecodeHashPayload(m.payload)
    case Err(e) => (s, Failed(Decoding(e)))
    case Ok(x) =>
      if at !in s then (s, Nil)
      else
        var answer := NewProofResponse(next, clock(at, next), m.ttl, ProofFor(s[at], x));
        var logged := Logged(s, at, from, answer);
        if !Attached(s, at, from) then (logged, Failed(UnknownPeer))
        else Received(env, TickAt(clock, cacheClock, from, next + 1), logged, from, at, answer)
  }

  lemma AnsweredIs(
      env: Env, clock: Clock, cacheClock: MessageId -> Int64, next: MessageId, s: States, at: PeerId, from: PeerId, m: Message,
      answer: Message)
    requires at in s && DecodeHashPayload(m.payload).Ok?
    requires answer == NewProofResponse(next, clock(at, next), m.ttl, ProofFor(s[at], DecodeHashPayload(m.payload).value))
    ensures Silent(answer)
    ensures Answered(env, clock, cacheClock, next, s, at, from, m) ==
            var logged := Logged(s, at, from, answer);
            if !Attached(s, at, from) then (logged, Failed(UnknownPeer))
            else Received(env, TickAt(clock, cacheClock, from, next + 1), logged, from, at, answer)
  {
    hide DecodeHashPayload, ProofFor, Received, Logged, Attached, EncodeProofPayload, TickAt;
  }

  lemma NotAsked(
      env: Env, clock: Clock, cacheClock: MessageId -> Int64, next: MessageId, s: States, at: PeerId, from: PeerId, m: Message)
    requires DecodeHashPayload(m.payload).Err?
    ensures Answered(env, clock, cacheClock, next, s, at, from, m) == (s, Failed(Decoding(DecodeHashPayload(m.payload).error)))
  {
    hide DecodeHashPayload;
  }

  lemma TickTime(clock: Clock, cacheClock: MessageId -> Int64, at: PeerId, next: MessageId)
    ensures TickAt(clock, cacheClock, at, next).now == clock(at, next)
  {}

  /** Receiving is the replay check, then handling. */
  lemma ReceivedIs(env: Env, tick: Tick, s: States, at: PeerId, from: PeerId, m: Message)
    requires at in s && MembersStored(s[at])
    ensures Received(env, tick, s, at, from, m) ==
            if m.messageId in Pruned(s[at].seen, tick.now) then (s[at := s[at].(seen := Pruned(s[at].seen, tick.now))], Nil)
            else HandledBy(env, tick, s[at := Mark(tick, s[at], m.messageId)], at, from, m)
  {
    hide MembersStored, Handle, Pruned;
    var marked := Mark(tick, s[at], m.messageId);
    SameMembersStored(s[at], marked);
    if m.messageId !in Pruned(s[at].seen, tick.now) {
      var r := Handle(env, tick, marked, from, m).0;
      assert s[at := marked][at := r] == s[at := r];
    }
  }

  /** Messages that no handler looks at. */
  lemma HandledByType(env: Env, tick: Tick, s: States, at: PeerId, from: PeerId, m: Message)
    requires at in s && MembersStored(s[at])
    ensures m.typ == ACK || m.typ == ERROR ==> HandledBy(env, tick, s, at, from, m) == (s, Nil)
    ensures m.typ > ERROR ==> HandledBy(env, tick, s, at, from, m) == (s, Failed(UnsupportedType))
  {
    hide MembersStored, HandleInv, HandleGet, HandleTx, HandleProofRequest, HandleProofResponse;
    assert s[at := s[at]] == s;
  }

  /** The message makes its receiver send nothing. */
  predicate Silent(m: Message) {
    m.typ != INV && m.typ != GET && m.typ != TX && m.typ != PROOF_REQ
  }

  // ---------------------------------------------------------------------------------------
  // Exactly when a flood succeeds

  /** Peer lists in reach are symmetric and name only nodes in reach, and every node in reach can be
      reached from `at`. */
  ghost predicate Spans(s: States, at: PeerId, reach: set<PeerId>) {
    && (forall p <- reach :: p in s && forall q <- s[p].peers :: q != [] && q in reach && q in s && p in s[q].peers)
    && (forall p <- reach :: exists path :: Walk(s, path) && path[0] == at && path[|path| - 1] == p)
  }

  /** Every peer of every node in reach is attached. */
  predicate AllLinksAttached(s: States, reach: set<PeerId>) {
    forall p <- reach :: p in s && forall q <- s[p].peers :: Attached(s, p, q)
  }

  lemma AttachedIsMutual(w: Watch, s: States, at: PeerId)
    requires Spans(s, at, w.reach) && AllLinksAttached(s, w.reach)
    ensures Mutual(w, s)
  {
    hide Walk;
  }

  lemma {:induction false} WalkStays(a: States, b: States, path: seq<PeerId>)
    requires Evolves(a, b) && Walk(a, path)
    ensures Walk(b, path)
  {
    hide RecordsKept;
    forall i | 0 <= i < |path| - 1 ensures Neighbours(b, path[i], path[i + 1]) {
      assert Neighbours(a, path[i], path[i + 1]);
    }
  }

  /** If everyone who has the transfer passed it on, every link in reach is attached. */
  lemma SuccessNeedsLinks(a: States, b: States, at: PeerId, reach: set<PeerId>, x: Hash)
    requires Evolves(a, b) && Spans(a, at, reach)
    requires (forall p :: Has(b, p, x) ==> PeersHave(b, p, x)) && Has(b, at, x)
    ensures AllLinksAttached(a, reach)
  {
    hide RecordsKept, Has, Neighbours;
    AttachedStays(a, b);
    AllReached(b, at, x);
    forall p | p in reach ensures p in a && forall q <- a[p].peers :: Attached(a, p, q) {
      var path :| Walk(a, path) && path[0] == at && path[|path| - 1] == p;
      WalkStays(a, b, path);
      assert Has(b, p, x) by {
        WalkEnds(a, path);
      }
    }
  }

  lemma WalkEnds(s: States, path: seq<PeerId>)
    requires Walk(s, path)
    ensures path[|path| - 1] in path
  {}

  /** A submission of the signed target at a node in reach that has not spent its inputs. */
  ghost predicate Launched(env: Env, target: Q.Target, reach: set<PeerId>, clock: Clock, s: States, at: PeerId, t: Transfer) {
    && Ready(env, Watch({}, target, reach), clock, s) && at in reach && at in s
    && Normalize(env.hash, t).id == target.tx.id && Q.SignedBy(env, target, t.sig) && Sendable(t)
    && Consumable(s[at].consumed, t.inputs)
  }

  lemma WatchLocal(env: Env, s: States, tx: Transfer, target: Q.Target, reach: set<PeerId>) returns (w: Watch)
    ensures Within(env, s, w.ids) && {tx.id} + CarriedBy(env, tx) <= w.ids && Watched(w) == tx.id
    ensures target.tx.id == tx.id ==> w.target == target && w.reach == reach
  {
    var ids := Universe(env, s, tx);
    w := Watch(ids, if target.tx.id == tx.id then target else Q.Target(tx, map[], []), reach);
  }

  lemma LaunchAccepted(
      env: Env, target: Q.Target, reach: set<PeerId>, clock: Clock, s: States, at: PeerId, t: Transfer, n: MessageId)
    requires Launched(env, target, reach, clock, s, at, t) && Inv(env, s[at])
    ensures Validate(env, clock(at, n), s[at].valueStore, Normalize(env.hash, t)) == Nil
    ensures Consumable(s[at].consumed, Normalize(env.hash, t).inputs) && Normalize(env.hash, t).id == target.tx.id
  {
    hide Inv, Validate, EncodeTransfer, Q.Deliverable, Q.Unexpired, Q.Prepared, Q.SignedBy, Attached, Consumable, Sized;
    EncodingIgnoresIDs(env.hash, t);
    NormalizeKeepsSignature(env.hash, t);
    Q.InvAddressed(env, s[at]);
    hide Normalize;
    Q.AcceptedIffSigned(env, target, clock(at, n), s[at], Normalize(env.hash, t));
  }

  /** What the ids are does not matter to readiness. */
  lemma SameWatch(env: Env, w: Watch, v: Watch, clock: Clock, s: States)
    requires w.target == v.target && w.reach == v.reach
    ensures Ready(env, w, clock, s) == Ready(env, v, clock, s) && Mutual(w, s) == Mutual(v, s)
  {
    hide Q.Deliverable, Q.Unexpired, Q.Prepared, Attached;
  }

  /** The outcome of a launch, from that of storing and announcing. */
  lemma LaunchDecides(
      env: Env, w: Watch, clock: Clock, a: States, b: States, c: States, at: PeerId, t: Transfer, tx: Transfer, out: Outcome)
    requires Launched(env, w.target, w.reach, clock, a, at, t) && tx == Normalize(env.hash, t) && Watched(w) == tx.id
    requires Steady(env, w, clock, a, b) && Evolves(a, b) && Evolves(a, c) && SameHolders(tx.id, a, b) && (Fit(a) ==> Fit(b))
    requires Ready(env, w, clock, b) && at in w.reach && Sendable(tx) ==> Went(out) && (Mutual(w, b) ==> out == Nil)
    requires out == Nil ==> Has(c, at, tx.id)
    requires out == Nil && Fit(b) && Sendable(tx) && (forall p :: !Has(b, p, tx.id)) ==>
               forall p :: Has(c, p, tx.id) ==> PeersHave(c, p, tx.id)
    ensures Went(out) && (Mutual(Watch({}, w.target, w.reach), a) ==> out == Nil)
    ensures Spans(a, at, w.reach) && Fit(a) && (forall p :: !Has(a, p, tx.id)) ==> (out == Nil <==> AllLinksAttached(a, w.reach))
  {
    hide Ready, Mutual, Spans, AllLinksAttached, Fit, Has, PeersHave, Evolves, Normalize, Sendable, Q.SignedBy, Consumable;
    SameWatch(env, w, Watch({}, w.target, w.reach), clock, a);
    SendableNormalized(env.hash, t);
    if Spans(a, at, w.reach) && Fit(a) && (forall p :: !Has(a, p, tx.id)) {
      if AllLinksAttached(a, w.reach) {
        AttachedIsMutual(w, a, at);
      }
      if out == Nil {
        SuccessNeedsLinks(a, c, at, w.reach, tx.id);
      }
    }
  }

  lemma OneMoreAttached(a: States, b: States, at: PeerId, told: seq<PeerId>, q: PeerId)
    requires Evolves(a, b) && AllAttached(a, at, told) && Attached(b, at, q)
    ensures AllAttached(a, at, told + [q])
  {
    hide Attached, Evolves;
    AttachedStays(a, b);
  }

  /** `told` have been told of `y`, without an error. */
  ghost predicate ToldAll(env: Env, w: Watch, clock: Clock, a: States, b: States, at: PeerId, told: seq<PeerId>, y: Hash) {
    && Sound(env, w.ids, a, b) && AllAttached(a, at, told) && SmoothAll(env, w, clock, a, b, at, told, y, Nil)
    && (Fit(a) && (y == Watched(w) ==> Has(a, at, y)) ==> PassedOn(Watched(w), a, b) && AllHave(b, told, Watched(w), y))
  }

  lemma ToldNone(env: Env, w: Watch, clock: Clock, s: States, at: PeerId, y: Hash)
    requires Within(env, s, w.ids)
    ensures ToldAll(env, w, clock, s, s, at, [], y)
  {
    hide Within, Fit, SmoothAll, PassedOn, AllHave;
    NothingChanged(env, w.ids, Watched(w), s);
    NoneTold(s, Watched(w), y);
    NoneSmooth(env, w, clock, s, at, y);
  }

  lemma ToldWithin(env: Env, w: Watch, clock: Clock, a: States, b: States, at: PeerId, told: seq<PeerId>, y: Hash)
    requires ToldAll(env, w, clock, a, b, at, told, y)
    ensures |Missing(b, w.ids)| <= |Missing(a, w.ids)| && Within(env, b, w.ids)
  {
    hide SmoothAll, Missing, AllAttached, PassedOn, AllHave, Fit, Has;
    Announcing(env, w.ids, Watched(w), a, b, at);
  }

  lemma ToldFacts(env: Env, w: Watch, clock: Clock, a: States, b: States, at: PeerId, told: seq<PeerId>, y: Hash)
    requires ToldAll(env, w, clock, a, b, at, told, y)
    ensures Sound(env, w.ids, a, b) && AllAttached(a, at, told) && SmoothAll(env, w, clock, a, b, at, told, y, Nil)
    ensures Fit(a) && (y == Watched(w) ==> Has(a, at, y)) ==> PassedOn(Watched(w), a, b) && AllHave(b, told, Watched(w), y)
  {
    hide Sound, AllAttached, SmoothAll, Fit, Has, PassedOn, AllHave;
  }

  /** What telling one peer ensures. */
  ghost predicate ToldPeer(env: Env, w: Watch, clock: Clock, b: States, c: States, at: PeerId, to: PeerId, y: Hash, out: Outcome) {
    && Sound(env, w.ids, b, c) && SmoothAll(env, w, clock, b, c, at, [to], y, out)
    && (out == Nil ==> Attached(b, at, to))
    && (out == Nil && Fit(b) && (y == Watched(w) ==> Has(b, at, y)) ==>
          PassedOn(Watched(w), b, c) && (y == Watched(w) ==> Has(c, to, y)))
  }

  lemma ToldOne(env: Env, w: Watch, clock: Clock, a: States, b: States, c: States, at: PeerId, tos: seq<PeerId>, i: nat, y: Hash)
    requires i < |tos| && at in a && ToldAll(env, w, clock, a, b, at, tos[..i], y) && ToldPeer(env, w, clock, b, c, at, tos[i], y, Nil)
    ensures ToldAll(env, w, clock, a, c, at, tos[..i + 1], y)
  {
    hide Within, Fit, SmoothAll, PassedOn, AllHave, AllAttached, Attached, Evolves, Has;
    SoundTransitive(env, w.ids, a, b, c);
    Announcing(env, w.ids, Watched(w), a, b, at);
    OneMoreSmooth(env, w, clock, a, b, c, at, tos, i, y, Nil);
    OneMoreAttached(a, b, at, tos[..i], tos[i]);
    OneMoreTold(env, w.ids, Watched(w), a, b, c, tos[..i], tos[i], y);
    assert tos[..i + 1] == tos[..i] + [tos[i]];
  }

  lemma ToldFails(
      env: Env, w: Watch, clock: Clock, a: States, b: States, c: States, at: PeerId, tos: seq<PeerId>, i: nat, y: Hash, out: Outcome)
    requires i < |tos| && at in a && ToldAll(env, w, clock, a, b, at, tos[..i], y) && out.Failed?
    requires ToldPeer(env, w, clock, b, c, at, tos[i], y, out)
    ensures Sound(env, w.ids, a, c) && AllAttached(a, at, tos[..i]) && SmoothAll(env, w, clock, a, c, at, tos, y, out)
    ensures Fit(a) && (y == Watched(w) ==> Has(a, at, y)) ==> AllHave(c, tos[..i], Watched(w), y)
  {
    hide Within, Fit, SmoothAll, PassedOn, AllHave, AllAttached, Attached, Evolves, Has;
    SoundTransitive(env, w.ids, a, b, c);
    OneMoreSmooth(env, w, clock, a, b, c, at, tos, i, y, out);
    ToldStays(b, c, tos[..i], Watched(w), y);
  }

  /** Marking or pruning the replay cache. */
  lemma MarkingKeeps(tick: Tick, s: States, at: PeerId, id: MessageId)
    requires at in s
    ensures var r := Mark(tick, s[at], id); r.txStore == s[at].txStore && r.valueStore == s[at].valueStore && r.peers == s[at].peers
    ensures id in Pruned(s[at].seen, tick.now) ==> !Unseen(s, id)
  {}

  /** Asking for a proof and answering spread nothing themselves. */
  lemma ProofServes(env: Env, x: Hash, a: States, b: States, at: PeerId, from: PeerId, m: Message, answer: Message)
    requires m.typ == PROOF_REQ && answer.typ == PROOF_RESP
    ensures Honest(env, x, a, from, at, answer)
    ensures Served(env, x, a, b, from, at, answer) ==> Served(env, x, a, b, at, from, m)
  {
    hide Has, Names, PassedOn;
  }

  lemma SoundEvolves(env: Env, ids: set<Hash>, a: States, b: States)
    requires Sound(env, ids, a, b)
    ensures Evolves(a, b)
  {}

  lemma SelfEvolves(s: States)
    ensures Evolves(s, s)
  {
    SelfKept();
  }

  lemma SoundAttached(env: Env, ids: set<Hash>, a: States, b: States)
    requires Sound(env, ids, a, b)
    ensures Evolves(a, b) && forall p, q :: Attached(b, p, q) <==> Attached(a, p, q)
  {
    hide Attached, Within, Fit, Evolves;
    AttachedStays(a, b);
  }

  lemma ToldStays(a: States, b: States, told: seq<PeerId>, x: Hash, y: Hash)
    requires Evolves(a, b)
    ensures AllHave(a, told, x, y) ==> AllHave(b, told, x, y)
  {
    hide Evolves, AllHave;
    if AllHave(a, told, x, y) {
      AllHaveGrows(a, b, told, x, y);
    }
  }

  /** Before storing, a TX about the target cannot fail at a ready node; any other may. */
  lemma SmoothUnlessFailing(env: Env, w: Watch, clock: Clock, s: States, at: PeerId, from: PeerId, m: Message, n: MessageId)
    requires at in s && Inv(env, s[at]) && m.typ == TX
    ensures DecodedTransfer(env, m.payload).Err?
            || Validate(env, clock(at, n), s[at].valueStore, DecodedTransfer(env, m.payload).value.0) != Nil ==>
              forall out :: Smooth(env, w, clock, s, s, at, from, m, out)
  {
    hide Inv, About, Ready, DecodedTransfer, Validate;
    if About(env, w, m) && Ready(env, w, clock, s) && at in w.reach {
      TargetAccepted(env, w, clock, s, at, m, n);
    }
  }
}
