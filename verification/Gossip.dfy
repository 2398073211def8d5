/** A network of nodes with a bag of messages in flight, delivered in any order; every run is finite. */
module Gossip {
  import opened Bytes
  import opened Crypto
  import opened Protocol
  import opened Replay
  import opened Selection
  import opened NodeState
  import opened Coherence
  import opened Invariants
  import opened Runs
  import opened Histories
  import opened Relay

  datatype Packet = Packet(src: PeerId, dst: PeerId, message: Message)

  datatype Net = Net(nodes: map<PeerId, State>, inflight: seq<Packet>)

  /** Deliver or lose the packet at an index, submit a transfer at a node, or inject any packet, a
      proof request for one. Times, message IDs and failing sends are whatever the tick says. */
  datatype Action =
    | Deliver(k: nat, tick: Tick)
    | Lose(k: nat)
    | Submit(at: PeerId, tick: Tick, tx: Transfer)
    | Inject(packet: Packet)

  ghost predicate ValidNodes(env: Env, nodes: map<PeerId, State>) {
    forall v <- nodes :: Inv(env, nodes[v]) && MembersStored(nodes[v])
  }

  predicate Enabled(net: Net, a: Action) {
    match a
    case Deliver(k, _) => k < |net.inflight|
    case Lose(k) => k < |net.inflight|
    case Submit(at, _, _) => at in net.nodes
    case Inject(_) => true
  }

  function Without(packets: seq<Packet>, k: nat): seq<Packet>
    requires k < |packets|
  {
    packets[..k] + packets[k + 1..]
  }

  /** What the sent log gained. */
  function NewlySent(st: State, r: State): seq<SentMessage> {
    if |st.sent| <= |r.sent| then r.sent[|st.sent|..] else []
  }

  function Packets(src: PeerId, out: seq<SentMessage>): seq<Packet> {
    seq(|out|, i requires 0 <= i < |out| => Packet(src, out[i].to, out[i].message))
  }

  /** The network after the node `at` went to state `r`. A send that failed is in the bag as well: it
      may be lost from there. */
  function After(net: Net, at: PeerId, r: State): Net
    requires at in net.nodes
  {
    Net(net.nodes[at := r], net.inflight + Packets(at, NewlySent(net.nodes[at], r)))
  }

  ghost function Act(env: Env, net: Net, a: Action): Net
    requires ValidNodes(env, net.nodes) && Enabled(net, a)
  {
    match a
    case Deliver(k, tick) =>
      var p, rest := net.inflight[k], net.(inflight := Without(net.inflight, k));
      if p.dst !in net.nodes then rest
      else After(rest, p.dst, OnMessage(env, tick, net.nodes[p.dst], p.src, p.message).0)
    case Lose(k) => net.(inflight := Without(net.inflight, k))
    case Submit(at, tick, tx) => After(net, at, AcceptLocal(env, tick, net.nodes[at], tx).0)
    case Inject(p) => net.(inflight := net.inflight + [p])
  }

  lemma ActKeepsValid(env: Env, net: Net, a: Action)
    requires ValidNodes(env, net.nodes) && Enabled(net, a)
    ensures ValidNodes(env, Act(env, net, a).nodes)
  {
    hide Inv, MembersStored, OnMessage, AcceptLocal;
    match a {
      case Deliver(k, tick) =>
        var p := net.inflight[k];
        if p.dst in net.nodes {
          OnMessageKeepsInv(env, tick, net.nodes[p.dst], p.src, p.message);
          InvMembersStored(env, OnMessage(env, tick, net.nodes[p.dst], p.src, p.message).0);
        }
      case Lose(_) =>
      case Submit(at, tick, tx) =>
        AcceptLocalKeepsInv(env, tick, net.nodes[at], tx);
        InvMembersStored(env, AcceptLocal(env, tick, net.nodes[at], tx).0);
      case Inject(_) =>
    }
  }

  ghost predicate Runnable(env: Env, net: Net, actions: seq<Action>)
    requires ValidNodes(env, net.nodes)
    decreases |actions|
  {
    actions == [] ||
    (Enabled(net, actions[0]) &&
     (ActKeepsValid(env, net, actions[0]); Runnable(env, Act(env, net, actions[0]), actions[1..])))
  }

  ghost function RunNet(env: Env, net: Net, actions: seq<Action>): Net
    requires ValidNodes(env, net.nodes) && Runnable(env, net, actions)
    decreases |actions|
  {
    if actions == [] then net
    else
      ActKeepsValid(env, net, actions[0]);
      RunNet(env, Act(env, net, actions[0]), actions[1..])
  }

  // ---------------------------------------------------------------------------------------
  // The measure

  /** The transfers a network can still spread. */
  ghost function Ids(env: Env, net: Net): set<Hash> {
    Known(env, net.nodes) + set p, y | p in net.inflight && y in Carried(env, p.message) :: y
  }

  /** The identifiers stored by a node, and those its TX messages carry. */
  ghost function KnownBy(env: Env, st: State): set<Hash> {
    set x, y | x in st.txStore && y in {x} + CarriedBy(env, st.txStore[x].tx) :: y
  }

  ghost function Known(env: Env, nodes: map<PeerId, State>): set<Hash> {
    set v, y | v in nodes && y in KnownBy(env, nodes[v]) :: y
  }

  /** Which nodes lack which of the transfers. */
  ghost function Missing(nodes: map<PeerId, State>, ids: set<Hash>): set<(PeerId, Hash)> {
    set v, x | v in nodes && x in ids && x !in nodes[v].txStore :: (v, x)
  }

  function Weight(m: Message): nat {
    if m.typ == INV then 3 else if m.typ == GET || m.typ == PROOF_REQ then 2 else 1
  }

  function Weights(packets: seq<Packet>): nat {
    if packets == [] then 0 else Weight(packets[0].message) + Weights(packets[1..])
  }

  /** Storing a missing transfer announces it to at most `degree` peers. */
  function Spread(degree: nat, missing: nat): nat {
    3 * degree * missing
  }

  ghost function Potential(env: Env, net: Net, degree: nat): nat {
    Spread(degree, |Missing(net.nodes, Ids(env, net))|) + Weights(net.inflight)
  }

  ghost predicate Bounded(nodes: map<PeerId, State>, degree: nat) {
    forall v <- nodes :: |nodes[v].peers| <= degree
  }

  // ---------------------------------------------------------------------------------------
  // One delivery

  /** A handled message makes a node send less than it weighs, or store what it carries. */
  ghost predicate Progress(env: Env, v: PeerId, st: State, m: Message, r: State) {
    && r.peers == st.peers && st.sent <= r.sent && RecordsKept(st, r)
    && (forall o <- NewlySent(st, r) :: Carried(env, o.message) <= KnownBy(env, st))
    && (if r.txStore.Keys == st.txStore.Keys then Weights(Packets(v, NewlySent(st, r))) < Weight(m)
        else exists x :: StoredFrom(env, st, m, r, x) && Weights(Packets(v, NewlySent(st, r))) <= 3 * |st.peers|)
  }

  ghost predicate StoredFrom(env: Env, st: State, m: Message, r: State, x: Hash) {
    && x !in st.txStore && r.txStore.Keys == st.txStore.Keys + {x}
    && Carried(env, m) == {x} && CarriedBy(env, r.txStore[x].tx) == {x}
  }

  lemma SentMany(st: State, r: State, out: seq<SentMessage>)
    requires r.sent == st.sent + out
    ensures st.sent <= r.sent && NewlySent(st, r) == out
  {}

  lemma SentOne(v: PeerId, st: State, o: SentMessage)
    ensures NewlySent(st, st.(sent := st.sent + [o])) == [o] && NewlySent(st, st) == []
    ensures Weights(Packets(v, [o])) == Weight(o.message) && Weights(Packets(v, [])) == 0
  {
    assert Packets(v, [o]) == [Packet(v, o.to, o.message)];
  }

  lemma {:induction false} InvsWeigh(env: Env, v: PeerId, tick: Tick, base: nat, tos: seq<PeerId>, ttl: Int64, x: Hash)
    ensures Weights(Packets(v, Invs(tick, base, tos, ttl, x))) == 3 * |tos|
    ensures forall o <- Invs(tick, base, tos, ttl, x) :: Carried(env, o.message) == {}
    decreases |tos|
  {
    if tos != [] {
      InvsStep(tick, base, tos[0], tos[1..], ttl, x);
      InvsWeigh(env, v, tick, base + 1, tos[1..], ttl, x);
      assert tos == [tos[0]] + tos[1..];
      hide Carried, EncodeHash;
      var out := Invs(tick, base, tos, ttl, x);
      assert Packets(v, out)[1..] == Packets(v, out[1..]);
    }
  }

  lemma InvProgress(env: Env, v: PeerId, tick: Tick, st: State, from: PeerId, m: Message)
    requires m.typ == INV
    ensures Progress(env, v, st, m, HandleInv(tick, st, from, m).0)
  {
    hide DecodeHashPayload, EncodeHash, Weights, KnownBy, Packets;
    match DecodeHashPayload(m.payload) {
      case Ok(x) => SentOne(v, st, SentMessage(from, NewGet(tick.ids(|st.sent|), tick.now, m.ttl, x)));
      case Err(_) =>
    }
    SentOne(v, st, SentMessage(from, m));
  }

  lemma GetProgress(env: Env, v: PeerId, tick: Tick, st: State, from: PeerId, m: Message)
    requires m.typ == GET
    ensures Progress(env, v, st, m, HandleGet(tick, st, from, m).0)
  {
    hide DecodeHashPayload, EncodeTxPayload, EncodeTransfer, Weights, Carried, Packets;
    SentOne(v, st, SentMessage(from, m));
    match DecodeHashPayload(m.payload) {
      case Ok(x) =>
        if x in st.txStore {
          var tx := st.txStore[x].tx;
          SentOne(v, st, SentMessage(from, NewTx(tick.ids(|st.sent|), tick.now, m.ttl, tx)));
          CarriesWhatItIsMadeFrom(env, tick.ids(|st.sent|), tick.now, m.ttl, tx);
          forall y | y in CarriedBy(env, tx) ensures y in KnownBy(env, st) {
            assert y in {x} + CarriedBy(env, st.txStore[x].tx);
          }
        }
      case Err(_) =>
    }
  }

  lemma ProofRequestProgress(env: Env, v: PeerId, tick: Tick, st: State, from: PeerId, m: Message)
    requires m.typ == PROOF_REQ
    ensures Progress(env, v, st, m, HandleProofRequest(tick, st, from, m).0)
  {
    hide DecodeHashPayload, EncodeProofPayload, HasConflict, Weights, KnownBy, Packets;
    SentOne(v, st, SentMessage(from, m));
    match DecodeHashPayload(m.payload) {
      case Ok(x) =>
        var o := HandleProofRequest(tick, st, from, m).0.sent[|st.sent|];
        SentOne(v, st, o);
      case Err(_) =>
    }
  }

  lemma TxProgress(env: Env, v: PeerId, tick: Tick, st: State, from: PeerId, m: Message)
    requires Inv(env, st) && MembersStored(st) && m.typ == TX
    ensures Progress(env, v, st, m, HandleTx(env, tick, st, from, m).0)
  {
    hide Inv, MembersStored, HandleTx, DecodedTransfer, Validate, CarriedBy, KnownBy, Weights, Packets, Announced;
    hide Quiet, Progress, Carried;
    var n := HandleTxSends(env, tick, st, from, m);
    var r := HandleTx(env, tick, st, from, m).0;
    if NewAndValid(env, tick, st, m) {
      AnnouncedProgress(env, v, tick, st, from, m, r, n);
    } else {
      QuietProgress(env, v, st, m, r);
    }
  }

  lemma AnnouncedProgress(env: Env, v: PeerId, tick: Tick, st: State, from: PeerId, m: Message, r: State, n: nat)
    requires m.typ == TX && DecodedTransfer(env, m.payload).Ok?
    requires Announced(tick, st, r, DecodedTransfer(env, m.payload).value.0, from, m.ttl, n)
    ensures Progress(env, v, st, m, r)
  {
    hide DecodedTransfer, CarriedBy, KnownBy, Weights, Packets, Invs, Sendable, RecordsKept, MemberAdded, StoreOutputs, StopsAt;
    hide PeersExcept, AllUp;
    var tx, tos := DecodedTransfer(env, m.payload).value.0, PeersExcept(st, from);
    DecodedIsSendable(env, m.payload);
    InvsWeigh(env, v, tick, |st.sent|, tos[..n], m.ttl, tx.id);
    assert NewlySent(st, r) == Invs(tick, |st.sent|, tos[..n], m.ttl, tx.id);
    FewerThanPeers(st, from);
    assert StoredFrom(env, st, m, r, tx.id);
  }

  lemma FewerThanPeers(st: State, skip: PeerId)
    ensures |PeersExcept(st, skip)| <= |st.peers|
  {
    assert |st.peers.Keys| == |st.peers|;
    if skip in st.peers {
      assert st.peers.Keys - {skip} + {skip} == st.peers.Keys;
    } else {
      assert st.peers.Keys - {skip} == st.peers.Keys;
    }
  }

  lemma QuietProgress(env: Env, v: PeerId, st: State, m: Message, r: State)
    requires Quiet(st, r) && r.peers == st.peers && r.sent == st.sent
    ensures Progress(env, v, st, m, r)
  {
    hide RecordsKept;
    SentOne(v, st, SentMessage([], m));
  }

  lemma HandleProgress(env: Env, v: PeerId, tick: Tick, st: State, from: PeerId, m: Message)
    requires Inv(env, st) && MembersStored(st)
    ensures Progress(env, v, st, m, Handle(env, tick, st, from, m).0)
  {
    hide Inv, MembersStored, HandleInv, HandleGet, HandleTx, HandleProofRequest, HandleProofResponse, Progress, Quiet;
    SelfQuiet(st);
    if m.typ == INV {
      InvProgress(env, v, tick, st, from, m);
    } else if m.typ == GET {
      GetProgress(env, v, tick, st, from, m);
    } else if m.typ == TX {
      TxProgress(env, v, tick, st, from, m);
    } else if m.typ == PROOF_REQ {
      ProofRequestProgress(env, v, tick, st, from, m);
    } else if m.typ == PROOF_RESP {
      ProofResponseSends(env, tick, st, from, m);
      QuietProgress(env, v, st, m, HandleProofResponse(env, tick, st, from, m).0);
    } else {
      QuietProgress(env, v, st, m, st);
    }
  }

  lemma OnMessageProgress(env: Env, v: PeerId, tick: Tick, st: State, from: PeerId, m: Message)
    requires Inv(env, st) && MembersStored(st)
    ensures Progress(env, v, st, m, OnMessage(env, tick, st, from, m).0)
  {
    hide Inv, MembersStored, Handle, Pruned, Quiet, Progress;
    if m.messageId in Pruned(st.seen, tick.now) {
      var r := OnMessage(env, tick, st, from, m).0;
      SameCoreQuiet(st, r);
      QuietProgress(env, v, st, m, r);
    } else {
      var marked := Mark(tick, st, m.messageId);
      SameCoreKeepsInv(env, st, marked);
      InvMembersStored(env, marked);
      HandleProgress(env, v, tick, marked, from, m);
      ProgressFrame(env, v, st, marked, m, Handle(env, tick, marked, from, m).0);
    }
  }

  lemma ProgressFrame(env: Env, v: PeerId, st: State, marked: State, m: Message, r: State)
    requires marked == st.(seen := marked.seen) && Progress(env, v, marked, m, r)
    ensures Progress(env, v, st, m, r)
  {
    hide CarriedBy, Carried, Weights, Packets, KnownBy, RecordsKept;
    SameKnown(env, st, marked, r);
    if r.txStore.Keys != st.txStore.Keys {
      var x :| StoredFrom(env, marked, m, r, x);
      assert StoredFrom(env, st, m, r, x);
    }
  }

  lemma SameKnown(env: Env, st: State, marked: State, r: State)
    requires marked.txStore == st.txStore && marked.sent == st.sent
    ensures KnownBy(env, st) == KnownBy(env, marked) && NewlySent(st, r) == NewlySent(marked, r)
    ensures RecordsKept(marked, r) ==> RecordsKept(st, r)
  {
    hide CarriedBy;
  }

  // ---------------------------------------------------------------------------------------
  // Arithmetic of the measure

  lemma SpreadMonotone(degree: nat, a: nat, b: nat)
    requires a <= b
    ensures Spread(degree, a) <= Spread(degree, b)
    ensures Spread(degree, a + 1) == Spread(degree, a) + 3 * degree
  {}

  lemma SpreadAdds(degree: nat, a: nat, b: nat)
    ensures Spread(degree, a + b) == Spread(degree, a) + Spread(degree, b)
  {}

  lemma SubsetSize<T>(a: set<T>, b: set<T>)
    requires a <= b
    ensures |a| <= |b| && (a != b ==> |a| < |b|)
  {
    assert b == a + (b - a);
  }

  lemma {:induction false} WeightsAppend(a: seq<Packet>, b: seq<Packet>)
    ensures Weights(a + b) == Weights(a) + Weights(b)
    decreases |a|
  {
    hide Weight;
    if a == [] {
      assert a + b == b;
    } else {
      assert (a + b)[1..] == a[1..] + b;
      WeightsAppend(a[1..], b);
    }
  }

  lemma WeightsWithout(packets: seq<Packet>, k: nat)
    requires k < |packets|
    ensures Weights(Without(packets, k)) + Weight(packets[k].message) == Weights(packets)
  {
    hide Weight, Weights;
    var before, p, after := packets[..k], packets[k], packets[k + 1..];
    assert packets == before + ([p] + after);
    WeightsAppend(before, [p] + after);
    WeightsAppend([p], after);
    WeightsAppend(before, after);
    WeightsOne(p);
  }

  lemma WeightsOne(p: Packet)
    ensures Weights([p]) == Weight(p.message)
  {}

  function Pairs(nodes: set<PeerId>, ids: set<Hash>): set<(PeerId, Hash)> {
    set v, x | v in nodes && x in ids :: (v, x)
  }

  lemma {:induction false} PairsSize(nodes: set<PeerId>, ids: set<Hash>)
    ensures |Pairs(nodes, ids)| == |nodes| * |ids|
    decreases |nodes|
  {
    if nodes == {} {
      assert Pairs(nodes, ids) == {};
    } else {
      var v :| v in nodes;
      PairsSize(nodes - {v}, ids);
      RowSize(v, ids);
      assert Pairs(nodes, ids) == Pairs(nodes - {v}, ids) + Pairs({v}, ids);
      assert Pairs(nodes - {v}, ids) !! Pairs({v}, ids);
      assert |nodes| * |ids| == (|nodes| - 1) * |ids| + |ids|;
    }
  }

  lemma {:induction false} RowSize(v: PeerId, ids: set<Hash>)
    ensures |Pairs({v}, ids)| == |ids|
    decreases |ids|
  {
    if ids == {} {
      assert Pairs({v}, ids) == {};
    } else {
      var x :| x in ids;
      RowSize(v, ids - {x});
      assert Pairs({v}, ids) == Pairs({v}, ids - {x}) + {(v, x)};
    }
  }

  // ---------------------------------------------------------------------------------------
  // What can still spread, over a step

  /** Stores only grow. */
  ghost predicate Grows(nodes: map<PeerId, State>, nodes': map<PeerId, State>) {
    nodes'.Keys == nodes.Keys && forall v <- nodes :: nodes[v].txStore.Keys <= nodes'[v].txStore.Keys
  }

  lemma MissingGrows(nodes: map<PeerId, State>, ids: set<Hash>, nodes': map<PeerId, State>, ids': set<Hash>, more: set<Hash>)
    requires Grows(nodes, nodes') && ids' <= ids + more
    ensures |Missing(nodes', ids')| <= |Missing(nodes, ids)| + |nodes| * |more|
  {
    PairsSize(nodes.Keys, more);
    assert |nodes.Keys| == |nodes|;
    SubsetSize(Missing(nodes', ids'), Missing(nodes, ids) + Pairs(nodes.Keys, more));
  }

  lemma MissingShrinks(nodes: map<PeerId, State>, ids: set<Hash>, nodes': map<PeerId, State>, ids': set<Hash>, v: PeerId, x: Hash)
    requires Grows(nodes, nodes') && ids' <= ids
    requires v in nodes && x in ids && x !in nodes[v].txStore && x in nodes'[v].txStore
    ensures |Missing(nodes', ids')| < |Missing(nodes, ids)|
  {
    assert (v, x) in Missing(nodes, ids) && (v, x) !in Missing(nodes', ids');
    SubsetSize(Missing(nodes', ids'), Missing(nodes, ids));
  }

  lemma KnownKept(env: Env, st: State, r: State, more: set<Hash>)
    requires RecordsKept(st, r) && forall x <- r.txStore | x !in st.txStore :: {x} + CarriedBy(env, r.txStore[x].tx) <= more
    ensures KnownBy(env, r) <= KnownBy(env, st) + more
  {
    hide CarriedBy;
    forall y | y in KnownBy(env, r) ensures y in KnownBy(env, st) + more {
      var x :| x in r.txStore && y in {x} + CarriedBy(env, r.txStore[x].tx);
      if x in st.txStore {
        assert r.txStore[x].tx == st.txStore[x].tx;
        assert y in {x} + CarriedBy(env, st.txStore[x].tx);
      }
    }
  }

  lemma IdsAfter(env: Env, net: Net, rest: seq<Packet>, at: PeerId, r: State, more: set<Hash>)
    requires at in net.nodes && (forall p <- rest :: p in net.inflight)
    requires KnownBy(env, r) <= KnownBy(env, net.nodes[at]) + more
    requires forall o <- NewlySent(net.nodes[at], r) :: Carried(env, o.message) <= KnownBy(env, net.nodes[at])
    ensures Ids(env, After(Net(net.nodes, rest), at, r)) <= Ids(env, net) + more
  {
    hide Carried, KnownBy;
    var after := After(Net(net.nodes, rest), at, r);
    forall y | y in Known(env, after.nodes) ensures y in Ids(env, net) + more {
      var v :| v in after.nodes && y in KnownBy(env, after.nodes[v]);
      assert v in net.nodes;
    }
    forall p, y | p in after.inflight && y in Carried(env, p.message) ensures y in Ids(env, net) {
      if p !in rest {
        var o :| o in NewlySent(net.nodes[at], r) && o.message == p.message;
        assert y in Known(env, net.nodes);
      }
    }
  }

  // ---------------------------------------------------------------------------------------
  // The measure over a step

  lemma WeightsAfter(net: Net, at: PeerId, r: State)
    requires at in net.nodes
    ensures Weights(After(net, at, r).inflight) == Weights(net.inflight) + Weights(Packets(at, NewlySent(net.nodes[at], r)))
  {
    hide Weights, Packets, NewlySent;
    WeightsAppend(net.inflight, Packets(at, NewlySent(net.nodes[at], r)));
  }

  /** A node that makes progress on a packet taken out of the bag lowers the potential. */
  lemma ProgressDecreases(env: Env, net: Net, k: nat, r: State, degree: nat)
    requires k < |net.inflight| && net.inflight[k].dst in net.nodes && Bounded(net.nodes, degree)
    requires Progress(env, net.inflight[k].dst, net.nodes[net.inflight[k].dst], net.inflight[k].message, r)
    ensures Potential(env, After(net.(inflight := Without(net.inflight, k)), net.inflight[k].dst, r), degree) < Potential(env, net, degree)
  {
    hide Weights, Packets, NewlySent, Ids, Missing, Carried, Without, Weight, RecordsKept, After, Spread, CarriedBy, KnownBy;
    var p, rest := net.inflight[k], Without(net.inflight, k);
    var st, before := net.nodes[p.dst], net.(inflight := rest);
    WeightsAfter(before, p.dst, r);
    WeightsWithout(net.inflight, k);
    if r.txStore.Keys == st.txStore.Keys {
      NothingStored(env, net, k, r, degree);
    } else {
      var x :| StoredFrom(env, st, p.message, r, x) && Weights(Packets(p.dst, NewlySent(st, r))) <= 3 * |st.peers|;
      CarriedStored(env, net, k, r, x, degree);
      WeighsSomething(p.message);
    }
  }

  lemma NothingStored(env: Env, net: Net, k: nat, r: State, degree: nat)
    requires k < |net.inflight| && net.inflight[k].dst in net.nodes
    requires var st := net.nodes[net.inflight[k].dst];
             && RecordsKept(st, r) && r.txStore.Keys == st.txStore.Keys
             && (forall o <- NewlySent(st, r) :: Carried(env, o.message) <= KnownBy(env, st))
    ensures var after := After(net.(inflight := Without(net.inflight, k)), net.inflight[k].dst, r);
            Spread(degree, |Missing(after.nodes, Ids(env, after))|) <= Spread(degree, |Missing(net.nodes, Ids(env, net))|)
  {
    hide NewlySent, Ids, Missing, Carried, Without, RecordsKept, After, Spread, CarriedBy, KnownBy;
    var p, rest := net.inflight[k], Without(net.inflight, k);
    var after := After(net.(inflight := rest), p.dst, r);
    RestInFlight(net.inflight, k);
    StoresGrow(net, rest, p.dst, r);
    KnownKept(env, net.nodes[p.dst], r, {});
    IdsAfter(env, net, rest, p.dst, r, {});
    MissingGrows(net.nodes, Ids(env, net), after.nodes, Ids(env, after), {});
    SpreadMonotone(degree, |Missing(after.nodes, Ids(env, after))|, |Missing(net.nodes, Ids(env, net))|);
  }

  lemma CarriedStored(env: Env, net: Net, k: nat, r: State, x: Hash, degree: nat)
    requires k < |net.inflight| && net.inflight[k].dst in net.nodes
    requires var st := net.nodes[net.inflight[k].dst];
             && RecordsKept(st, r) && StoredFrom(env, st, net.inflight[k].message, r, x)
             && (forall o <- NewlySent(st, r) :: Carried(env, o.message) <= KnownBy(env, st))
    ensures var after := After(net.(inflight := Without(net.inflight, k)), net.inflight[k].dst, r);
            Spread(degree, |Missing(after.nodes, Ids(env, after))|) + 3 * degree <= Spread(degree, |Missing(net.nodes, Ids(env, net))|)
  {
    hide NewlySent, Ids, Missing, Carried, Without, RecordsKept, After, Spread, CarriedBy, KnownBy;
    var p, rest := net.inflight[k], Without(net.inflight, k);
    var after := After(net.(inflight := rest), p.dst, r);
    RestInFlight(net.inflight, k);
    StoresGrow(net, rest, p.dst, r);
    KnownKept(env, net.nodes[p.dst], r, {x});
    IdsAfter(env, net, rest, p.dst, r, {x});
    CarriedInIds(env, net, k);
    var m, m' := |Missing(net.nodes, Ids(env, net))|, |Missing(after.nodes, Ids(env, after))|;
    MissingShrinks(net.nodes, Ids(env, net), after.nodes, Ids(env, after), p.dst, x);
    SpreadMonotone(degree, m' + 1, m);
    SpreadMonotone(degree, m', m);
  }

  lemma RestInFlight(packets: seq<Packet>, k: nat)
    requires k < |packets|
    ensures forall p <- Without(packets, k) :: p in packets
  {}

  lemma StoresGrow(net: Net, rest: seq<Packet>, at: PeerId, r: State)
    requires at in net.nodes && RecordsKept(net.nodes[at], r)
    ensures Grows(net.nodes, After(Net(net.nodes, rest), at, r).nodes)
    ensures at in After(Net(net.nodes, rest), at, r).nodes && After(Net(net.nodes, rest), at, r).nodes[at] == r
  {}

  lemma CarriedInIds(env: Env, net: Net, k: nat)
    requires k < |net.inflight|
    ensures Carried(env, net.inflight[k].message) <= Ids(env, net)
  {
    hide Carried, Known;
    assert net.inflight[k] in net.inflight;
  }

  lemma WeighsSomething(m: Message)
    ensures 1 <= Weight(m) <= 3
  {}

  /** Every delivery and every loss lowers the potential, whatever the clocks, IDs and failing sends. */
  lemma DeliveryDecreases(env: Env, net: Net, a: Action, degree: nat)
    requires ValidNodes(env, net.nodes) && Enabled(net, a) && Bounded(net.nodes, degree) && (a.Deliver? || a.Lose?)
    ensures Potential(env, Act(env, net, a), degree) < Potential(env, net, degree)
  {
    hide Inv, MembersStored, OnMessage, Potential, Progress, Without;
    var p := net.inflight[a.k];
    if a.Deliver? && p.dst in net.nodes {
      OnMessageProgress(env, p.dst, a.tick, net.nodes[p.dst], p.src, p.message);
      ProgressDecreases(env, net, a.k, OnMessage(env, a.tick, net.nodes[p.dst], p.src, p.message).0, degree);
    } else {
      LossDecreases(env, net, a.k, degree);
    }
  }

  lemma LossDecreases(env: Env, net: Net, k: nat, degree: nat)
    requires k < |net.inflight|
    ensures Potential(env, net.(inflight := Without(net.inflight, k)), degree) < Potential(env, net, degree)
  {
    hide Weights, Missing, Ids, Without, Weight, Spread;
    WeightsWithout(net.inflight, k);
    RestInFlight(net.inflight, k);
    FewerIds(env, net, Without(net.inflight, k), {});
    WeighsSomething(net.inflight[k].message);
    var after := net.(inflight := Without(net.inflight, k));
    MissingGrows(net.nodes, Ids(env, net), net.nodes, Ids(env, after), {});
    SpreadMonotone(degree, |Missing(net.nodes, Ids(env, after))|, |Missing(net.nodes, Ids(env, net))|);
  }

  lemma FewerIds(env: Env, net: Net, packets: seq<Packet>, more: set<Hash>)
    requires forall p <- packets :: p in net.inflight || Carried(env, p.message) <= more
    ensures Ids(env, net.(inflight := packets)) <= Ids(env, net) + more
  {
    hide Carried, Known;
  }

  /** What an action from outside may add to the potential. */
  function Charge(a: Action, degree: nat, nodes: nat): nat {
    match a
    case Submit(_, _, _) => Spread(degree, 2 * nodes) + 3 * degree
    case Inject(_) => Spread(degree, nodes) + 3
    case _ => 0
  }

  lemma SubmitCharge(env: Env, net: Net, at: PeerId, tick: Tick, t: Transfer, degree: nat)
    requires ValidNodes(env, net.nodes) && at in net.nodes && Bounded(net.nodes, degree)
    ensures Potential(env, After(net, at, AcceptLocal(env, tick, net.nodes[at], t).0), degree)
         <= Potential(env, net, degree) + Spread(degree, 2 * |net.nodes|) + 3 * degree
  {
    hide Inv, MembersStored, AcceptLocal, Weights, Packets, NewlySent, Ids, Missing, KnownBy, Carried, CarriedBy;
    hide After, Spread, Normalize, RecordsKept;
    var st := net.nodes[at];
    var r, tx := AcceptLocal(env, tick, st, t).0, Normalize(env.hash, t);
    SubmitProgress(env, at, tick, st, t);
    WeightsAfter(net, at, r);
    SubmittedSize(env, tx);
    StoredLocally(env, net, at, r, {tx.id} + CarriedBy(env, tx), degree);
  }

  lemma StoredLocally(env: Env, net: Net, at: PeerId, r: State, more: set<Hash>, degree: nat)
    requires at in net.nodes && RecordsKept(net.nodes[at], r) && |more| <= 2
    requires forall x <- r.txStore | x !in net.nodes[at].txStore :: {x} + CarriedBy(env, r.txStore[x].tx) <= more
    requires forall o <- NewlySent(net.nodes[at], r) :: Carried(env, o.message) <= KnownBy(env, net.nodes[at])
    ensures var after := After(net, at, r);
            Spread(degree, |Missing(after.nodes, Ids(env, after))|)
              <= Spread(degree, |Missing(net.nodes, Ids(env, net))|) + Spread(degree, 2 * |net.nodes|)
  {
    hide NewlySent, Ids, Missing, KnownBy, Carried, CarriedBy, After, Spread, RecordsKept;
    KnownKept(env, net.nodes[at], r, more);
    IdsAfter(env, net, net.inflight, at, r, more);
    StoresGrow(net, net.inflight, at, r);
    var after := After(net, at, r);
    MissingGrows(net.nodes, Ids(env, net), after.nodes, Ids(env, after), more);
    var m, m' := |Missing(net.nodes, Ids(env, net))|, |Missing(after.nodes, Ids(env, after))|;
    TwiceAtMost(|net.nodes|, |more|);
    SpreadMonotone(degree, m', m + 2 * |net.nodes|);
    SpreadAdds(degree, m, 2 * |net.nodes|);
  }

  lemma TwiceAtMost(n: nat, k: nat)
    requires k <= 2
    ensures n * k <= 2 * n
  {}

  lemma SubmittedSize(env: Env, tx: Transfer)
    ensures |{tx.id} + CarriedBy(env, tx)| <= 2
  {
    hide Carried;
    CarriedSize(env, NewTx(0, 0, 0, tx));
  }

  lemma SubmitProgress(env: Env, at: PeerId, tick: Tick, st: State, t: Transfer)
    requires Inv(env, st) && MembersStored(st)
    ensures var r, tx := AcceptLocal(env, tick, st, t).0, Normalize(env.hash, t);
            && r.peers == st.peers && RecordsKept(st, r)
            && (forall x <- r.txStore | x !in st.txStore :: {x} + CarriedBy(env, r.txStore[x].tx) <= {tx.id} + CarriedBy(env, tx))
            && (forall o <- NewlySent(st, r) :: Carried(env, o.message) <= KnownBy(env, st))
            && Weights(Packets(at, NewlySent(st, r))) <= 3 * |st.peers|
  {
    hide Inv, MembersStored, AcceptLocal, Weights, Packets, Submittable, KnownBy, Carried, CarriedBy, Normalize, Invs;
    hide MemberAdded, StoreOutputs, StopsAt, SendsOutcome, Validate, PeersExcept;
    var r, tx, tos := AcceptLocal(env, tick, st, t).0, Normalize(env.hash, t), PeersExcept(st, []);
    var n := AcceptLocalSends(env, tick, st, t);
    FewerThanPeers(st, []);
    SentOne(at, st, SentMessage([], NewTx(0, 0, 0, tx)));
    if Submittable(env, tick, st, t) {
      InvsWeigh(env, at, tick, |st.sent|, tos[..n], LOCAL_TTL, tx.id);
      assert NewlySent(st, r) == Invs(tick, |st.sent|, tos[..n], LOCAL_TTL, tx.id);
    }
    SelfQuiet(st);
  }

  lemma InjectCharge(env: Env, net: Net, p: Packet, degree: nat)
    ensures Potential(env, net.(inflight := net.inflight + [p]), degree)
         <= Potential(env, net, degree) + Spread(degree, |net.nodes|) + 3
  {
    hide Weights, Missing, Ids, Carried, Weight, Spread;
    var after, more := net.(inflight := net.inflight + [p]), Carried(env, p.message);
    WeightsAppend(net.inflight, [p]);
    WeightsOne(p);
    WeighsSomething(p.message);
    FewerIds(env, net, net.inflight + [p], more);
    MissingGrows(net.nodes, Ids(env, net), net.nodes, Ids(env, after), more);
    CarriedSize(env, p.message);
    OnceAtMost(|net.nodes|, |more|);
    var m := |Missing(net.nodes, Ids(env, net))|;
    SpreadMonotone(degree, |Missing(net.nodes, Ids(env, after))|, m + |net.nodes|);
    SpreadAdds(degree, m, |net.nodes|);
  }

  lemma OnceAtMost(n: nat, k: nat)
    requires k <= 1
    ensures n * k <= n
  {}

  // ---------------------------------------------------------------------------------------
  // Every run is finite

  lemma ActKeepsShape(env: Env, net: Net, a: Action, degree: nat)
    requires ValidNodes(env, net.nodes) && Enabled(net, a) && Bounded(net.nodes, degree)
    ensures var after := Act(env, net, a); after.nodes.Keys == net.nodes.Keys && Bounded(after.nodes, degree) && |after.nodes| == |net.nodes|
  {
    hide Inv, MembersStored, OnMessage, AcceptLocal;
    var after := Act(env, net, a);
    match a {
      case Deliver(k, tick) =>
        var p := net.inflight[k];
        if p.dst in net.nodes {
          OnMessageProgress(env, p.dst, tick, net.nodes[p.dst], p.src, p.message);
        }
      case Lose(_) =>
      case Submit(at, tick, t) => SubmitProgress(env, at, tick, net.nodes[at], t);
      case Inject(_) =>
    }
    assert after.nodes.Keys == net.nodes.Keys;
    assert |after.nodes| == |after.nodes.Keys| && |net.nodes| == |net.nodes.Keys|;
  }

  function Deliveries(actions: seq<Action>): nat {
    if actions == [] then 0 else (if actions[0].Deliver? || actions[0].Lose? then 1 else 0) + Deliveries(actions[1..])
  }

  function Charges(actions: seq<Action>, degree: nat, nodes: nat): nat {
    if actions == [] then 0 else Charge(actions[0], degree, nodes) + Charges(actions[1..], degree, nodes)
  }

  /** From any state of the network, the submissions and injected packets of a run bound how many
      deliveries it can contain, in any order, although no hop lowers a TTL. */
  lemma {:induction false} RunsAreFinite(env: Env, net: Net, actions: seq<Action>, degree: nat)
    requires ValidNodes(env, net.nodes) && Runnable(env, net, actions) && Bounded(net.nodes, degree)
    ensures Deliveries(actions) + Potential(env, RunNet(env, net, actions), degree)
         <= Potential(env, net, degree) + Charges(actions, degree, |net.nodes|)
    decreases |actions|
  {
    hide ValidNodes, Bounded, Act, Potential, Enabled, Charge;
    if actions != [] {
      var a := actions[0];
      ActKeepsValid(env, net, a);
      ActKeepsShape(env, net, a, degree);
      RunsAreFinite(env, Act(env, net, a), actions[1..], degree);
      ActCharge(env, net, a, degree);
    }
  }

  lemma ActCharge(env: Env, net: Net, a: Action, degree: nat)
    requires ValidNodes(env, net.nodes) && Enabled(net, a) && Bounded(net.nodes, degree)
    ensures Potential(env, Act(env, net, a), degree) + (if a.Deliver? || a.Lose? then 1 else 0)
         <= Potential(env, net, degree) + Charge(a, degree, |net.nodes|)
  {
    hide ValidNodes, Bounded, Potential, Spread, OnMessage, AcceptLocal, After;
    match a {
      case Submit(at, tick, t) => SubmitCharge(env, net, at, tick, t, degree);
      case Inject(p) => InjectCharge(env, net, p, degree);
      case _ => DeliveryDecreases(env, net, a, degree);
    }
  }
}
