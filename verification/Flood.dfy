/** In-memory delivery: without an installed sender, a send calls the receiver's handler before it
    returns, so accepting one transfer runs the whole flood as one deep mutual recursion. */
module Flood {
  import opened Bytes
  import opened Crypto
  import opened Protocol
  import opened Replay
  import opened Selection
  import opened NodeState
  import opened Coherence
  import opened Invariants
  import opened Runs
  import opened Histories
  import opened Relay
  import opened Gossip
  import opened Nodes
  import opened Spreading
  import Q = Quiescence

  /** The nodes of one process. */
  class Cluster {
    const env: Env
    /** The nodes' clocks and those of their replay caches; they move on as messages are made. */
    const clock: Clock
    const cacheClock: MessageId -> Int64
    const members: map<PeerId, Node>
    var nextId: MessageId

    ghost function Objects(): set<object> {
      (set p | p in members :: members[p] as object)
      + (set p | p in members :: members[p].replayCache as object)
      + (set p | p in members :: members[p].inputTracker as object)
    }

    ghost function View(): States
      reads Objects()
    {
      map p | p in members :: members[p].View()
    }

    /** The members are found under their own IDs and share nothing. */
    ghost predicate Apart() {
      && (forall p <- members :: members[p].id == p && members[p].env == env)
      && (forall p <- members, q <- members | p != q ::
            members[p].replayCache != members[q].replayCache && members[p].inputTracker != members[q].inputTracker)
    }

    ghost predicate Valid()
      reads this, Objects()
    {
      Apart() && (forall p <- members :: members[p].Valid()) && Wired(View()) && SeenBelow(View(), nextId)
    }

    /** Valid nodes that share nothing, with attached peers among them and IDs below the next one. */
    constructor (env: Env, members: map<PeerId, Node>, clock: Clock, cacheClock: MessageId -> Int64, nextId: MessageId)
      requires forall p <- members :: members[p].id == p && members[p].env == env && members[p].Valid()
      requires forall p <- members, q <- members | p != q ::
                 members[p].replayCache != members[q].replayCache && members[p].inputTracker != members[q].inputTracker
      requires forall p <- members, q <- members[p].peers | members[p].peers[q] :: q in members
      requires forall p <- members, id <- members[p].replayCache.seen :: id < nextId
      ensures Valid() && this.env == env && this.members == members && this.clock == clock && this.cacheClock == cacheClock
      ensures this.nextId == nextId
    {
      hide Inv, MembersStored, Node.Valid;
      this.env, this.members, this.clock, this.cacheClock, this.nextId := env, members, clock, cacheClock, nextId;
    }

    /** A change to one node is a change of one entry of the view. */
    twostate lemma OnlyChanged(at: PeerId)
      requires at in members && Apart()
      requires forall p <- members | p != at ::
                 unchanged(members[p]) && unchanged(members[p].replayCache) && unchanged(members[p].inputTracker)
      ensures View() == old(View())[at := members[at].View()]
      ensures forall p <- members | p != at :: old(members[p].Valid()) ==> members[p].Valid()
    {
      hide Inv, MembersStored;
      assert forall p <- members | p != at :: members[p].View() == old(members[p].View());
    }

    lemma MemberFacts(at: PeerId)
      requires Valid() && at in members
      ensures members[at].Valid() && at in View() && View()[at] == members[at].View() && members[at].env == env
      ensures Inv(env, View()[at]) && MembersStored(View()[at])
      ensures View()[at].txStore == members[at].txStore && View()[at].valueStore == members[at].valueStore
      ensures View()[at].peers == members[at].peers
    {
      hide Inv, MembersStored;
    }

    /** The replay check of one message. */
    method Admit(at: PeerId, m: Message) returns (admitted: bool)
      requires Valid() && at in members && m.messageId < nextId
      modifies members[at].replayCache
      ensures Valid() && (admitted <==> m.messageId !in Pruned(old(View())[at].seen, clock(at, nextId)))
      ensures View() == old(View())[at := if admitted then Mark(TickAt(clock, cacheClock, at, nextId), old(View())[at], m.messageId)
                                          else old(View())[at].(seen := Pruned(old(View())[at].seen, clock(at, nextId)))]
    {
      hide Inv, MembersStored, Pruned;
      ghost var before := View();
      MemberFacts(at);
      admitted := members[at].Admit(TickAt(clock, cacheClock, at, nextId), m.messageId);
      OnlyChanged(at);
      StillWired(before, at, View()[at]);
      StillBelow(before, at, View()[at], m.messageId, TickAt(clock, cacheClock, at, nextId));
    }

    method Log(at: PeerId, to: PeerId, m: Message)
      requires Valid() && at in members
      modifies members[at]
      ensures Valid() && View() == old(View())[at := old(View())[at].(sent := old(View())[at].sent + [SentMessage(to, m)])]
    {
      hide Inv, MembersStored;
      ghost var before := View();
      MemberFacts(at);
      var _ := members[at].Send(TickAt(clock, cacheClock, at, nextId), to, m);
      OnlyChanged(at);
      StillWired(before, at, View()[at]);
    }

    method StoreAt(at: PeerId, tx: Transfer, canonical: Bytes, from: PeerId) returns (x: Hash, inserted: bool)
      requires Valid() && at in members && tx == Normalize(env.hash, tx) && canonical == EncodeTransfer(tx)
      requires Validate(env, clock(at, nextId), View()[at].valueStore, tx) == Nil && MembersStored(View()[at])
      modifies members[at]
      ensures Valid() && at in View()
      ensures (View()[at], x, inserted) == Store(env, clock(at, nextId), old(View())[at], tx, canonical, from)
      ensures x == tx.id && (inserted <==> tx.id !in old(View())[at].txStore)
      ensures View() == old(View())[at := View()[at]]
    {
      hide Inv, MembersStored, Store, Validate, Normalize, EncodeTransfer;
      ghost var before := View();
      MemberFacts(at);
      StoreLeaves(env, clock(at, nextId), before[at], tx, canonical, from);
      x, inserted := members[at].StoreTransfer(clock(at, nextId), tx, canonical, from);
      OnlyChanged(at);
      StillWired(before, at, View()[at]);
    }

    method ProofResponseAt(at: PeerId, from: PeerId, m: Message) returns (out: Outcome)
      requires Valid() && at in members && MembersStored(View()[at])
      modifies members[at]
      ensures Valid() && at in View()
      ensures (View()[at], out) == HandleProofResponse(env, TickAt(clock, cacheClock, at, nextId), old(View())[at], from, m)
      ensures View() == old(View())[at := View()[at]]
    {
      hide Inv, MembersStored, HandleProofResponse;
      ghost var before := View();
      MemberFacts(at);
      ProofResponseSends(env, TickAt(clock, cacheClock, at, nextId), before[at], from, m);
      out := members[at].HandleProofRESP(TickAt(clock, cacheClock, at, nextId), from, m);
      OnlyChanged(at);
      StillWired(before, at, View()[at]);
    }

    method ConsumeAt(at: PeerId, inputs: seq<Hash>) returns (ok: bool)
      requires Valid() && at in members
      modifies members[at].inputTracker
      ensures Valid() && (ok <==> Consumable(old(View())[at].consumed, inputs))
      ensures View() == old(View())[at := if ok then old(View())[at].(consumed := old(View())[at].consumed + Elements(inputs))
                                          else old(View())[at]]
    {
      hide Inv, MembersStored, Consumable;
      ghost var before := View();
      MemberFacts(at);
      ok := members[at].inputTracker.ConsumeInputs(inputs);
      members[at].SentKeepsValid(before[at], members[at].View());
      OnlyChanged(at);
      StillWired(before, at, View()[at]);
    }

    method Draw() returns (id: MessageId)
      requires Valid()
      modifies this`nextId
      ensures Valid() && id == old(nextId) && nextId == id + 1 && View() == old(View()) && Unseen(View(), id)
    {
      hide Node.Valid, Inv, MembersStored, Wired, SeenBelow, Unseen, Apart;
      ghost var before := View();
      NextIsUnseen(before, nextId);
      id := nextId;
      nextId := nextId + 1;
      assert View() == before;
    }

    method IsAttached(at: PeerId, to: PeerId) returns (attached: bool)
      requires Valid() && at in members
      ensures attached <==> Attached(View(), at, to)
      ensures attached ==> to in members
    {
      hide Inv, MembersStored, Wired;
      MemberFacts(at);
      attached := to in members[at].peers && members[at].peers[to];
      if attached {
        AttachedKnown(View(), at, to);
      }
    }

    method Attest(at: PeerId, x: Hash) returns (payload: ProofPayload)
      requires Valid() && at in members
      ensures Valid() && View() == old(View()) && at in View() && payload == ProofFor(View()[at], x)
    {
      hide Inv, MembersStored, HasConflict;
      MemberFacts(at);
      payload := ProofPayload(x, false, 0, false, 1);
      if x in members[at].txStore {
        var conflict := members[at].TransferHasConflict(x);
        payload := payload.(seen := true, seenTime := members[at].txStore[x].firstSeen, conflict := conflict);
      }
    }

    // -------------------------------------------------------------------------------------
    // The recursion, watched with any `w`: the transfers that can still spread, one of them to follow,
    // and any set of nodes.

    /** The receiver handles the message before the call returns; without a receiver there is an error. */
    method Send(at: PeerId, to: PeerId, m: Message, ghost w: Watch) returns (out: Outcome)
      requires Valid() && at in members && m.messageId < nextId && Within(env, View(), w.ids) && Carried(env, m) <= w.ids
      modifies this`nextId, Objects()
      ensures Valid() && old(nextId) <= nextId && Sound(env, w.ids, old(View()), View())
      ensures out == Nil && Fit(old(View())) && Honest(env, Watched(w), old(View()), to, at, m) && Unseen(old(View()), m.messageId) ==>
                Served(env, Watched(w), old(View()), View(), to, at, m)
      ensures Smooth(env, w, clock, old(View()), View(), at, to, m, out)
      ensures !Attached(old(View()), at, to) ==> out == Failed(UnknownPeer) && View() == Logged(old(View()), at, to, m)
      ensures Attached(old(View()), at, to) && Silent(m) ==>
                (View(), out) == Received(env, TickAt(clock, cacheClock, to, old(nextId)), Logged(old(View()), at, to, m), to, at, m)
      decreases |Missing(View(), w.ids)|, Weight(m), 4
    {
      hide View, Valid, Node.View, Node.Valid, Inv, MembersStored, Missing, Sound, Served, Carried, SeenBelow, Within;
      hide Fit, Honest, Has, Apart, Offers, Smooth, Steady, Attached, Silent, Received, TickAt, Wired;
      ghost var before := View();
      MemberFacts(at);
      Log(at, to, m);
      ghost var logged := View();
      assert logged == Logged(before, at, to, m);
      RecordsSame(env, w.ids, Watched(w), before, at, logged[at]);
      RecordsSteady(env, w, clock, before, at, logged[at]);
      Lift(env, w.ids, Watched(w), before, logged);
      SoundAttached(env, w.ids, before, logged);
      var attached := IsAttached(at, to);
      if !attached {
        RefusedSmooth(env, w, clock, before, logged, at, to, m);
        return Failed(UnknownPeer);
      }
      out := OnMessage(to, at, m, w);
      LiftServed(env, w.ids, Watched(w), before, logged, View(), to, at, m);
      SendSmooth(env, w, clock, before, logged, View(), at, to, m, out);
    }

    method OnMessage(at: PeerId, from: PeerId, m: Message, ghost w: Watch) returns (out: Outcome)
      requires Valid() && at in members && m.messageId < nextId && Within(env, View(), w.ids) && Carried(env, m) <= w.ids
      modifies this`nextId, Objects()
      ensures Valid() && old(nextId) <= nextId && Sound(env, w.ids, old(View()), View())
      ensures out == Nil && Fit(old(View())) && Honest(env, Watched(w), old(View()), at, from, m) && Unseen(old(View()), m.messageId) ==>
                Served(env, Watched(w), old(View()), View(), at, from, m)
      ensures Smooth(env, w, clock, old(View()), View(), at, from, m, out)
      ensures Silent(m) || m.messageId in Pruned(old(View())[at].seen, clock(at, old(nextId))) ==>
                (View(), out) == Received(env, TickAt(clock, cacheClock, at, old(nextId)), old(View()), at, from, m)
      decreases |Missing(View(), w.ids)|, Weight(m), 3
    {
      hide View, Valid, Node.View, Node.Valid, Inv, MembersStored, Missing, Sound, Served, Carried, SeenBelow, Within;
      hide Fit, Honest, Has, Apart, Offers, Wired, Weight, Smooth, Steady, Attached, Silent, Pruned, TickAt, Received;
      hide HandledBy, Mark, PassedOn, SameHolders;
      ghost var before := View();
      MemberFacts(at);
      ReceivedIs(env, TickAt(clock, cacheClock, at, nextId), before, at, from, m);
      TickTime(clock, cacheClock, at, nextId);
      MarkingKeeps(TickAt(clock, cacheClock, at, nextId), before, at, m.messageId);
      var admitted := Admit(at, m);
      ghost var marked := View();
      RecordsSame(env, w.ids, Watched(w), before, at, marked[at]);
      RecordsSteady(env, w, clock, before, at, marked[at]);
      Lift(env, w.ids, Watched(w), before, marked);
      SoundAttached(env, w.ids, before, marked);
      if !admitted {
        UnchangedSmooth(env, w, clock, marked, at, from, m);
        LiftSmooth(env, w, clock, before, marked, marked, at, from, m, Nil);
        return Nil;
      }
      MemberFacts(at);
      out := Dispatch(at, from, m, w);
      LiftServed(env, w.ids, Watched(w), before, marked, View(), at, from, m);
      LiftSmooth(env, w, clock, before, marked, View(), at, from, m, out);
    }

    method Dispatch(at: PeerId, from: PeerId, m: Message, ghost w: Watch) returns (out: Outcome)
      requires Valid() && at in members && Within(env, View(), w.ids) && Carried(env, m) <= w.ids
      modifies this`nextId, Objects()
      ensures Valid() && old(nextId) <= nextId && Sound(env, w.ids, old(View()), View())
      ensures out == Nil && Fit(old(View())) && Honest(env, Watched(w), old(View()), at, from, m) ==>
                Served(env, Watched(w), old(View()), View(), at, from, m)
      ensures Smooth(env, w, clock, old(View()), View(), at, from, m, out)
      ensures Silent(m) ==> (View(), out) == HandledBy(env, TickAt(clock, cacheClock, at, old(nextId)), old(View()), at, from, m)
      decreases |Missing(View(), w.ids)|, Weight(m), 2
    {
      hide View, Valid, Node.View, Node.Valid, Inv, MembersStored, Missing, Sound, Served, Carried, SeenBelow, Within;
      hide Fit, Honest, Has, Apart, Offers, Wired, Weight, Smooth, About, TickAt, HandledBy;
      MemberFacts(at);
      HandledByType(env, TickAt(clock, cacheClock, at, nextId), View(), at, from, m);
      AboutType(env, w, m);
      if m.typ == INV {
        out := HandleINV(at, from, m, w);
      } else if m.typ == GET {
        out := HandleGET(at, from, m, w);
      } else if m.typ == TX {
        out := HandleTX(at, from, m, w);
      } else if m.typ == PROOF_REQ {
        out := HandleProofREQ(at, from, m, w);
        NotAbout(env, w, clock, old(View()), View(), at, from, m, out);
      } else if m.typ == PROOF_RESP {
        out := HandleProofRESP(at, from, m, w);
        NotAbout(env, w, clock, old(View()), View(), at, from, m, out);
      } else if m.typ == ACK || m.typ == ERROR {
        Unanswered(env, w.ids, Watched(w), View(), at, from, m);
        out := Nil;
        NotAbout(env, w, clock, View(), View(), at, from, m, out);
      } else {
        NothingChanged(env, w.ids, Watched(w), View());
        out := Failed(UnsupportedType);
        NotAbout(env, w, clock, View(), View(), at, from, m, out);
      }
    }

    /** GET back unless the transfer is known; a sender that is not attached cannot be asked. */
    method HandleINV(at: PeerId, from: PeerId, m: Message, ghost w: Watch) returns (out: Outcome)
      requires Valid() && at in members && Within(env, View(), w.ids) && m.typ == INV
      modifies this`nextId, Objects()
      ensures Valid() && old(nextId) <= nextId && Sound(env, w.ids, old(View()), View())
      ensures out == Nil && Fit(old(View())) && Honest(env, Watched(w), old(View()), at, from, m) ==>
                Served(env, Watched(w), old(View()), View(), at, from, m)
      ensures Smooth(env, w, clock, old(View()), View(), at, from, m, out)
      ensures match DecodeHashPayload(m.payload)
              case Err(e) => out == Failed(Decoding(e)) && View() == old(View())
              case Ok(y) =>
                if Has(old(View()), at, y) then out == Nil && View() == old(View())
                else !Attached(old(View()), at, from) ==>
                  && out == Failed(UnknownPeer)
                  && View() == Logged(old(View()), at, from, NewGet(old(nextId), clock(at, old(nextId)), m.ttl, y))
      decreases |Missing(View(), w.ids)|, Weight(m), 1
    {
      hide View, Valid, Node.View, Node.Valid, Inv, MembersStored, Missing, Sound, Carried, SeenBelow, Within, Fit;
      hide Apart, Wired, DecodeHashPayload, EncodeHash, Smooth, About, Attached, TickAt;
      ghost var before := View();
      MemberFacts(at);
      NothingChanged(env, w.ids, Watched(w), before);
      CarriesNothing(env, m);
      AboutType(env, w, m);
      var decoded := DecodeHashPayload(m.payload);
      if decoded.Err? {
        NotAbout(env, w, clock, before, before, at, from, m, Failed(Decoding(decoded.error)));
        return Failed(Decoding(decoded.error));
      }
      if decoded.value in members[at].txStore {
        UnchangedSmooth(env, w, clock, before, at, from, m);
        return Nil;
      }
      var now := clock(at, nextId);
      var id := Draw();
      var get := NewGet(id, now, m.ttl, decoded.value);
      DecodeEncodedHash(decoded.value);
      CarriesNothing(env, get);
      AboutType(env, w, get);
      out := Send(at, from, get, w);
      ReplySmooth(env, w, clock, before, View(), at, from, m, get, out);
    }

    /** The transfer back if it is known; an asker that is not attached cannot be answered. */
    method HandleGET(at: PeerId, from: PeerId, m: Message, ghost w: Watch) returns (out: Outcome)
      requires Valid() && at in members && Within(env, View(), w.ids) && m.typ == GET
      modifies this`nextId, Objects()
      ensures Valid() && old(nextId) <= nextId && Sound(env, w.ids, old(View()), View())
      ensures out == Nil && Fit(old(View())) && Honest(env, Watched(w), old(View()), at, from, m) ==>
                Served(env, Watched(w), old(View()), View(), at, from, m)
      ensures Smooth(env, w, clock, old(View()), View(), at, from, m, out)
      ensures match DecodeHashPayload(m.payload)
              case Err(e) => out == Failed(Decoding(e)) && View() == old(View())
              case Ok(y) =>
                if !Has(old(View()), at, y) then out == Nil && View() == old(View())
                else !Attached(old(View()), at, from) ==>
                  && out == Failed(UnknownPeer)
                  && View() == Logged(old(View()), at, from,
                       NewTx(old(nextId), clock(at, old(nextId)), m.ttl, old(View())[at].txStore[y].tx))
      decreases |Missing(View(), w.ids)|, Weight(m), 1
    {
      hide View, Valid, Node.View, Node.Valid, Inv, MembersStored, Missing, Sound, Carried, SeenBelow, Within, Fit;
      hide Apart, Wired, DecodeHashPayload, EncodeTxPayload, Smooth, About, Attached, Ready, TickAt, PassedOn, EncodeTransfer;
      ghost var before := View();
      MemberFacts(at);
      NothingChanged(env, w.ids, Watched(w), before);
      CarriesNothing(env, m);
      AboutType(env, w, m);
      var decoded := DecodeHashPayload(m.payload);
      if decoded.Err? {
        NotAbout(env, w, clock, before, before, at, from, m, Failed(Decoding(decoded.error)));
        return Failed(Decoding(decoded.error));
      }
      var y := decoded.value;
      if y !in members[at].txStore {
        UnchangedSmooth(env, w, clock, before, at, from, m);
        return Nil;
      }
      var now := clock(at, nextId);
      ghost var tick := TickAt(clock, cacheClock, at, nextId);
      var id := Draw();
      var tx := NewTx(id, now, m.ttl, members[at].txStore[y].tx);
      RecordWithin(env, before, at, y, w.ids, id, now, m.ttl);
      AnswerAbout(env, w, clock, before, at, m, tick, id);
      if Fit(before) {
        RecordCarries(env, before, at, y, id, now, m.ttl);
      }
      out := Send(at, from, tx, w);
      ReplySmooth(env, w, clock, before, View(), at, from, m, tx, out);
    }

    /** Decode and validate, in the order of the errors, then store. */
    method HandleTX(at: PeerId, from: PeerId, m: Message, ghost w: Watch) returns (out: Outcome)
      requires Valid() && at in members && Within(env, View(), w.ids) && Carried(env, m) <= w.ids && m.typ == TX
      modifies this`nextId, Objects()
      ensures Valid() && old(nextId) <= nextId && Sound(env, w.ids, old(View()), View())
      ensures out == Nil && Fit(old(View())) && Honest(env, Watched(w), old(View()), at, from, m) ==>
                Served(env, Watched(w), old(View()), View(), at, from, m)
      ensures Smooth(env, w, clock, old(View()), View(), at, from, m, out)
      ensures match DecodedTransfer(env, m.payload)
              case Err(e) => out == Failed(Decoding(e)) && View() == old(View())
              case Ok((tx, canonical)) =>
                match Validate(env, clock(at, old(nextId)), old(View())[at].valueStore, tx)
                case Failed(e) => out == Failed(e) && View() == old(View())
                case Nil =>
                  var stored := StoredBy(env, clock(at, old(nextId)), old(View()), at, tx, canonical, from);
                  Evolves(stored, View()) && (Has(old(View()), at, tx.id) ==> out == Nil && View() == stored)
      decreases |Missing(View(), w.ids)|, Weight(m), 1
    {
      hide View, Valid, Node.View, Node.Valid, Inv, MembersStored, Missing, Sound, SeenBelow, Within, Fit, Apart;
      hide Wired, DecodeTxPayload, DecodeTransfer, EncodeTransfer, Smooth, About, Attached, TickAt, Ready;
      hide Validate, Normalize, Store, Has, Honest, Served, Carried, CarriedBy, Sendable, Sized, StoredBy, Evolves;
      ghost var before := View();
      MemberFacts(at);
      NothingChanged(env, w.ids, Watched(w), before);
      SmoothUnlessFailing(env, w, clock, before, at, from, m, nextId);
      var payload := DecodeTxPayload(m.payload);
      if payload.Err? {
        return Failed(Decoding(payload.error));
      }
      var decoded := DecodeTransferBytes(env.hash, payload.value.transferBytes);
      if decoded.Err? {
        return Failed(Decoding(decoded.error));
      }
      var tx := members[at].NormalizeTransfer(decoded.value.(sig := payload.value.signature));
      assert DecodedTransfer(env, m.payload) == Ok((tx, payload.value.transferBytes));
      var verdict := members[at].ValidateTransfer(clock(at, nextId), tx);
      if verdict.Failed? {
        return verdict;
      }
      out := StoreReceived(at, from, m, tx, payload.value.transferBytes, w);
    }

    /** The rest of the TX handler: store a valid transfer and, if it is new, tell the other peers. */
    method StoreReceived(at: PeerId, from: PeerId, m: Message, tx: Transfer, canonical: Bytes, ghost w: Watch)
      returns (out: Outcome)
      requires Valid() && at in members && Within(env, View(), w.ids) && Carried(env, m) <= w.ids && m.typ == TX
      requires DecodedTransfer(env, m.payload) == Ok((tx, canonical))
      requires Validate(env, clock(at, nextId), View()[at].valueStore, tx) == Nil
      modifies this`nextId, Objects()
      ensures Valid() && old(nextId) <= nextId && Sound(env, w.ids, old(View()), View())
      ensures out == Nil && Fit(old(View())) && Honest(env, Watched(w), old(View()), at, from, m) ==>
                Served(env, Watched(w), old(View()), View(), at, from, m)
      ensures Smooth(env, w, clock, old(View()), View(), at, from, m, out)
      ensures var stored := StoredBy(env, clock(at, old(nextId)), old(View()), at, tx, canonical, from);
              Evolves(stored, View()) && (Has(old(View()), at, tx.id) ==> out == Nil && View() == stored)
      decreases |Missing(View(), w.ids)|, Weight(m), 0
    {
      hide View, Valid, Node.View, Node.Valid, Inv, MembersStored, Missing, Sound, Within, Fit, DecodedTransfer;
      hide EncodeTransfer, TickAt, Smooth, SmoothAll, Steady, Evolves, Attached, AllAttached;
      hide Validate, Normalize, Store, Honest, Served, Carried, CarriedBy, Sendable, Sized, PassedOn, Gained;
      hide PeersExcept, AllHave;
      ghost var before, n := View(), nextId;
      MemberFacts(at);
      DecodedTransferFacts(env, m.payload);
      var y, inserted := StoreAt(at, tx, canonical, from);
      ghost var stored := View();
      TxStored(env, w.ids, Watched(w), clock(at, n), before, at, from, m, stored[at]);
      StoredReady(env, w, clock, before, at, from, m, n, stored[at]);
      SoundEvolves(env, w.ids, before, stored);
      SelfEvolves(stored);
      if !inserted {
        CopyServed(env, Watched(w), before, stored, at, from, m, y);
        UnchangedSmooth(env, w, clock, stored, at, from, m);
        LiftSmooth(env, w, clock, before, stored, stored, at, from, m, Nil);
        return Nil;
      }
      MemberFacts(at);
      HeldNow(env, w.ids, before, stored, at, y);
      var tos := members[at].PeerIDsExcept(from);
      TellsTheRest(stored[at], from, tos);
      ghost var told;
      out, told := AnnounceTo(at, tos, m.ttl, y, w);
      assert tos[..|tos|] == tos;
      SoundTransitive(env, w.ids, before, stored, View());
      SoundEvolves(env, w.ids, stored, View());
      AnnouncedSmooth(env, w, clock, before, stored, View(), at, from, m, y, tos, out);
      if out == Nil && Fit(before) && Honest(env, Watched(w), before, at, from, m) {
        TxServed(env, w.ids, Watched(w), before, stored, View(), at, from, m, y, tos);
      }
    }

    method Tell(at: PeerId, to: PeerId, ttl: Int64, y: Hash, ghost w: Watch) returns (out: Outcome)
      requires Valid() && at in members && Within(env, View(), w.ids)
      modifies this`nextId, Objects()
      ensures Valid() && old(nextId) <= nextId && Sound(env, w.ids, old(View()), View())
      ensures ToldPeer(env, w, clock, old(View()), View(), at, to, y, out)
      decreases |Missing(View(), w.ids)|, 3, 5
    {
      hide View, Valid, Node.View, Node.Valid, Inv, MembersStored, Missing, Sound, Within, Fit, Has, PassedOn, Carried;
      hide EncodeHash, DecodeHashPayload, TickAt, Attached, About, Ready, Mutual;
      var now := clock(at, nextId);
      var id := Draw();
      var inv := NewInv(id, now, ttl, y);
      DecodeEncodedHash(y);
      CarriesNothing(env, inv);
      AboutType(env, w, inv);
      out := Send(at, to, inv, w);
    }

    /** An INV to each peer in turn, up to the first failure: `told` of them have been told. */
    method AnnounceTo(at: PeerId, tos: seq<PeerId>, ttl: Int64, y: Hash, ghost w: Watch) returns (out: Outcome, ghost told: nat)
      requires Valid() && at in members && Within(env, View(), w.ids)
      modifies this`nextId, Objects()
      ensures Valid() && old(nextId) <= nextId && Sound(env, w.ids, old(View()), View())
      ensures told <= |tos| && (out == Nil <==> told == |tos|) && AllAttached(old(View()), at, tos[..told])
      ensures Fit(old(View())) && (y == Watched(w) ==> Has(old(View()), at, y)) ==>
                AllHave(View(), tos[..told], Watched(w), y) && (out == Nil ==> PassedOn(Watched(w), old(View()), View()))
      ensures SmoothAll(env, w, clock, old(View()), View(), at, tos, y, out)
      decreases |Missing(View(), w.ids)|, 3, 6
    {
      hide View, Valid, Node.View, Node.Valid, Inv, MembersStored, Missing, Sound, Within, Fit, Has, PassedOn, AllHave;
      hide SmoothAll, Attached, Evolves, AllAttached, ToldAll;
      ghost var before := View();
      MemberFacts(at);
      ToldNone(env, w, clock, before, at, y);
      told := 0;
      for i := 0 to |tos|
        invariant Valid() && old(nextId) <= nextId && told == i
        invariant ToldAll(env, w, clock, before, View(), at, tos[..i], y)
      {
        ghost var sofar := View();
        ToldWithin(env, w, clock, before, sofar, at, tos[..i], y);
        out := Tell(at, tos[i], ttl, y, w);
        if out.Failed? {
          ToldFails(env, w, clock, before, sofar, View(), at, tos, i, y, out);
          return out, i;
        }
        ToldOne(env, w, clock, before, sofar, View(), at, tos, i, y);
        told := i + 1;
      }
      assert tos[..|tos|] == tos;
      ToldFacts(env, w, clock, before, View(), at, tos, y);
      out := Nil;
    }

    /** Always an answer, with what this node knows; its receiver records it. */
    method HandleProofREQ(at: PeerId, from: PeerId, m: Message, ghost w: Watch) returns (out: Outcome)
      requires Valid() && at in members && Within(env, View(), w.ids) && m.typ == PROOF_REQ
      modifies this`nextId, Objects()
      ensures Valid() && old(nextId) <= nextId && Sound(env, w.ids, old(View()), View())
      ensures out == Nil && Fit(old(View())) && Honest(env, Watched(w), old(View()), at, from, m) ==>
                Served(env, Watched(w), old(View()), View(), at, from, m)
      ensures (View(), out) == Answered(env, clock, cacheClock, old(nextId), old(View()), at, from, m)
      decreases |Missing(View(), w.ids)|, Weight(m), 1
    {
      hide View, Valid, Node.View, Node.Valid, Inv, MembersStored, Missing, Sound, Carried, SeenBelow, Within, Fit;
      hide Apart, Wired, DecodeHashPayload, EncodeProofPayload, HasConflict, Has, PassedOn, Attached, TickAt, Received, Logged;
      hide ProofFor, Smooth, About, Names, Served, Honest, HandledBy, Answered, Silent, Fit;
      ghost var before := View();
      NothingChanged(env, w.ids, Watched(w), before);
      var decoded := DecodeHashPayload(m.payload);
      if decoded.Err? {
        NotAsked(env, clock, cacheClock, nextId, before, at, from, m);
        return Failed(Decoding(decoded.error));
      }
      var y := decoded.value;
      var payload := Attest(at, y);
      var now := clock(at, nextId);
      var id := Draw();
      var response := NewProofResponse(id, now, m.ttl, payload);
      CarriesNothing(env, response);
      out := Send(at, from, response, w);
      ProofServes(env, Watched(w), before, View(), at, from, m, response);
      AnsweredIs(env, clock, cacheClock, id, before, at, from, m, response);
    }

    /** The proof is recorded and a known target recomputed; nothing else changes anywhere. */
    method HandleProofRESP(at: PeerId, from: PeerId, m: Message, ghost w: Watch) returns (out: Outcome)
      requires Valid() && at in members && Within(env, View(), w.ids) && m.typ == PROOF_RESP
      modifies this`nextId, Objects()
      ensures Valid() && old(nextId) <= nextId && Sound(env, w.ids, old(View()), View())
      ensures out == Nil && Fit(old(View())) && Honest(env, Watched(w), old(View()), at, from, m) ==>
                Served(env, Watched(w), old(View()), View(), at, from, m)
      ensures nextId == old(nextId) && (View(), out) == HandledBy(env, TickAt(clock, cacheClock, at, old(nextId)), old(View()), at, from, m)
    {
      hide View, Valid, Node.View, Node.Valid, Inv, MembersStored, Missing, Sound, Carried, SeenBelow, Within, Fit;
      hide Apart, Wired, Has, PassedOn, HandleProofResponse, Quiet, TickAt;
      ghost var before := View();
      MemberFacts(at);
      CarriesNothing(env, m);
      ProofResponseSends(env, TickAt(clock, cacheClock, at, nextId), before[at], from, m);
      out := ProofResponseAt(at, from, m);
      QuietSame(env, w.ids, Watched(w), before, at, View()[at]);
    }

    /** Accepting and flooding terminates, and the error of a rejected transfer is the first one.

        If it reports no error for a transfer that nobody had, every node that can be reached from `at`
        over peer links has the transfer. For a signed `target` among `reach`, nodes that accept it, the
        only error is an unattached peer; where peer lists are symmetric, there is no error if and only
        if every link in reach is attached. */
    method AcceptLocalTransfer(at: PeerId, t: Transfer, ghost target: Q.Target, ghost reach: set<PeerId>) returns (out: Outcome)
      requires Valid() && at in members
      modifies this`nextId, Objects()
      ensures Valid() && Evolves(old(View()), View())
      ensures var verdict := Validate(env, clock(at, old(nextId)), old(View())[at].valueStore, Normalize(env.hash, t));
              && (verdict.Failed? ==> out == verdict && View() == old(View()))
              && (verdict == Nil && !Consumable(old(View())[at].consumed, t.inputs) ==>
                    out == Failed(InputConsumed) && View() == old(View()))
      ensures out == Nil ==> Has(View(), at, Normalize(env.hash, t).id)
      ensures out == Nil && Fit(old(View())) && Sendable(t) && (forall p :: !Has(old(View()), p, Normalize(env.hash, t).id)) ==>
                Reached(View(), at, Normalize(env.hash, t).id)
      ensures Launched(env, target, reach, clock, old(View()), at, t) ==>
                Went(out) && (Mutual(Watch({}, target, reach), old(View())) ==> out == Nil)
      ensures Launched(env, target, reach, clock, old(View()), at, t) && Spans(old(View()), at, reach) && Fit(old(View()))
                && (forall p :: !Has(old(View()), p, target.tx.id)) ==>
                  (out == Nil <==> AllLinksAttached(old(View()), reach))
    {
      hide View, Valid, Node.View, Node.Valid, Inv, MembersStored, Missing, Within, Fit, EncodeTransfer, TickAt;
      hide Reached, Consumable, Ready, Mutual, Spans, AllLinksAttached, Launched;
      hide Validate, Normalize, Has, CarriedBy, Sendable, PassedOn, PeersHave, Evolves;
      ghost var before := View();
      MemberFacts(at);
      var tx := members[at].NormalizeTransfer(t);
      ghost var x := tx.id;
      ghost var w := WatchLocal(env, before, tx, target, reach);
      NothingChanged(env, w.ids, x, before);
      SoundEvolves(env, w.ids, before, before);
      EncodingIgnoresIDs(env.hash, t);
      SendableNormalized(env.hash, t);
      NormalizeKeepsSignature(env.hash, t);
      if Launched(env, target, reach, clock, before, at, t) {
        LaunchAccepted(env, target, reach, clock, before, at, t, nextId);
      }
      var verdict := members[at].ValidateTransfer(clock(at, nextId), tx);
      if verdict.Failed? {
        return verdict;
      }
      var consumable := ConsumeAt(at, tx.inputs);
      ghost var consumed := View();
      RecordsSame(env, w.ids, x, before, at, consumed[at]);
      RecordsSteady(env, w, clock, before, at, consumed[at]);
      Lift(env, w.ids, x, before, consumed);
      SoundEvolves(env, w.ids, before, consumed);
      if !consumable {
        assert consumed == before;
        return Failed(InputConsumed);
      }
      out := StoreLocal(at, tx, w);
      EvolvesTransitive(before, consumed, View());
      if out == Nil && Fit(before) && Sendable(t) && (forall p :: !Has(before, p, x)) {
        AllReached(View(), at, x);
      }
      if Launched(env, target, reach, clock, before, at, t) {
        LaunchDecides(env, w, clock, before, consumed, View(), at, t, tx, out);
      }
    }

    /** The rest of accepting: store a valid transfer and tell all peers. */
    method StoreLocal(at: PeerId, tx: Transfer, ghost w: Watch) returns (out: Outcome)
      requires Valid() && at in members && Within(env, View(), w.ids) && {tx.id} + CarriedBy(env, tx) <= w.ids
      requires tx == Normalize(env.hash, tx) && Validate(env, clock(at, nextId), View()[at].valueStore, tx) == Nil
      requires Watched(w) == tx.id
      modifies this`nextId, Objects()
      ensures Valid() && Evolves(old(View()), View()) && (out == Nil ==> Has(View(), at, tx.id))
      ensures out == Nil && Fit(old(View())) && Sendable(tx) && (forall p :: !Has(old(View()), p, tx.id)) ==>
                forall p :: Has(View(), p, tx.id) ==> PeersHave(View(), p, tx.id)
      ensures Ready(env, w, clock, old(View())) && at in w.reach && Sendable(tx) ==>
                Went(out) && (Mutual(w, old(View())) ==> out == Nil)
    {
      hide View, Valid, Node.View, Node.Valid, Inv, MembersStored, Missing, Sound, Within, Fit, EncodeTransfer, TickAt;
      hide Validate, Normalize, Store, Has, CarriedBy, Sendable, PassedOn, Gained, PeersExcept, AllHave, PeersHave, Evolves;
      hide Ready, Mutual, AllAttached;
      ghost var before, n := View(), nextId;
      MemberFacts(at);
      var y, _ := StoreAt(at, tx, EncodeTransfer(tx), []);
      ghost var stored := View();
      LocallyStored(env, w.ids, tx.id, clock(at, n), before, at, tx, stored[at]);
      if Sendable(tx) {
        LocalReady(env, w, clock, before, at, n, tx, stored[at]);
      }
      MemberFacts(at);
      var tos := members[at].PeerIDsExcept([]);
      TellsTheRest(stored[at], [], tos);
      ghost var told;
      out, told := AnnounceTo(at, tos, LOCAL_TTL, y, w);
      assert tos[..|tos|] == tos;
      LocalEvolves(env, w.ids, tx.id, before, stored, View(), at);
      if out == Nil && Fit(before) && Sendable(tx) && (forall p :: !Has(before, p, tx.id)) {
        AllPassedOn(env, w.ids, tx.id, before, stored, View(), at, tos);
      }
    }
  }
}
