# Web4 node: a verified model

This project models the node of the Web4 prototype (packages `node`, `crypto`, `protocol` and the
frame codec of `transport`) in Dafny 4.11 and proves what the node promises. `dafny verify
dfyconfig.toml` checks all of it.

## What is modelled

A node keeps eight coupled stores: transfers, values, conflict sets per input, the selected lineage
per input, the finality of each transfer, who has shown it which transfer, the proofs it was sent,
and a replay cache with a tracker of locally spent inputs. Every message updates several of them in
loops, and recomputes the two caches (lineage, finality) only for the inputs of the one transfer it
touched.

| file | content |
|---|---|
| `Bytes.dfy` | bytes, 64-bit integers, big-endian numbers, byte order |
| `Crypto.dfy` | values, transfers, the canonical codec and identifiers (`crypto/`) |
| `Protocol.dfy` | payloads, messages, frames, streams (`protocol/`, `transport/transport.go`) |
| `Replay.dfy` | replay cache and input tracker (`protocol/replay.go`) |
| `Selection.dfy` | scoring, ranking, confidence, in exact arithmetic (`node/selection.go`, `node/finality.go`) |
| `NodeState.dfy` | the state of a node and every operation on it, as specification functions |
| `Node.dfy` | class `Node`: the fields updated in place, each method proved against `NodeState` |
| `Coherence.dfy`, `Invariants.dfy`, `Runs.dfy` | the invariant, why every step keeps it, runs |
| `Promises.dfy`, `Histories.dfy` | what holds in every reachable state and over every run |
| `Rules.dfy` | validation and finality, in the numbers and comparisons of the code |
| `Records.dfy` | each entry of the stores, traced to the event of the run that made it |
| `Replies.dfy` | what a node answers, from the bytes received to the bytes sent |
| `Confluence.dfy` | evidence may arrive in any order |
| `Relay.dfy`, `Gossip.dfy`, `Quiescence.dfy` | a network with a bag of messages in flight: termination and spreading |
| `Spreading.dfy`, `Flood.dfy` | in-memory delivery, where a send calls the receiver's handler: what it achieves, and class `Cluster` |

The hash, signature verification and `n -> math.Log(1 + n)` are the fields of `Env`, passed as
parameters; only lemmas that need the logarithm to be increasing ask for it (`LogLike`). A hash is a
number below 2^256; `Bytes.CompareIsNumeric` proves that its order is that of `bytes.Compare`. No
lemma assumes that the hash is injective: where collisions matter, a lemma asks that the particular
values involved do not collide. Clocks, message IDs and failing sends are the inputs of a step
(`Tick`). A proof in `Node.dfy` that `View()` afterwards equals a function of `View()` before is the
tie between the code and the properties, which are proved of those functions.

## What the proofs found

Properties that the code keeps only under a condition; each condition is exact and proved.

- A transfer survives encoding and decoding if and only if every count and length fits its 32-bit
  prefix (`Crypto.RoundTripIffSized`); the encoder truncates longer ones without an error. The same
  holds for messages (`Protocol.MessageRoundTripIff`).
- "Inputs have different owners" is reported only if the first input has an owner. `resolveSigner`
  uses a nil owner for "not set yet", which is also what an ownerless value leaves, so a run of
  ownerless inputs may precede inputs of any one owner (`Promises.SignerAccepted`,
  `Promises.OwnersAgreeIff`, with a concrete list in `Promises.OwnerlessInputAccepted`).
- A replay entry never expires if and only if its clock plus the TTL is not a positive int64: it is
  too early, or the sum wraps around to a negative number (`Replay.ExpiresIffPositive`).
- Handling two pieces of evidence in either order gives one state if and only if they are not two
  different proofs from one sender about one transfer, where the last one stands
  (`Confluence.CommuteIffCompatible`).
- Of two settled rivals seen by equally many peers, the later one can win an input from an earlier one
  without proofs: it does if and only if at least four nearby peers support it
  (`Selection.FourProofsOvertake`; the general condition is `Selection.OvertakesIff`).
- With messages in flight, peer links need not be symmetric for a transfer to spread along them. In
  memory they must be attached at both ends: the GET that answers an INV goes back over the
  receiver's own link, and fails with "unknown peer" if there is no node object on it. For a signed
  transfer that the nodes in reach accept, that is the only possible error; where peer lists are
  symmetric and nobody has the transfer yet, the flood succeeds if and only if every link in reach is
  attached (`Flood.Cluster.AcceptLocalTransfer`).

The documents of the repository also state rules that the code does not implement (conservation of
amounts per unit, fan-out, rate limits, peer exchange, retries, pruning of transfers). The model
follows the code.

## Model

| member | source | states |
|---|---|---|
| Bytes.CompareIsNumeric | node/selection.go:114 | comparing equally long encodings byte by byte is comparing the numbers, so hashes can be numbers |
| Bytes.Shifts | protocol/payload_proof.go:99-108 | four and eight bytes are read with the first byte as the most significant one |
| Crypto.DecodeEncode | crypto/decode.go:20-71 | decoding the encoding of any sized transfer gives back its inputs and outputs, with identifiers recomputed from content |
| Crypto.EncodeDecode | crypto/decode.go:20-149 | the decoder accepts exactly the encodings of sized transfers; what it returns encodes to the bytes it read and is identified by their hash |
| Crypto.EncodeInjective | crypto/encode.go:12-41 | transfers with one encoding have the same inputs and the same outputs up to identifiers |
| Crypto.ValueEncodeInjective | crypto/encode.go:5-10 | values with one encoding differ at most in the identifier |
| Crypto.RoundTripIffSized | crypto/encode.go:51-54 | the round trip holds if and only if all counts and lengths fit 32 bits |
| Crypto.EncodingIgnoresIDs | crypto/id.go:3-11 | encodings and identifiers depend on content only, so recomputing identifiers changes neither, and doing it twice is doing it once |
| Crypto.ValueLayout | crypto/encode.go:43-49 | by offset: amount, unit and owner after their lengths, then expiry, then depth, the last two as 64-bit two's complement |
| Crypto.TransferLayout | crypto/encode.go:29-41 | by offset: the count of inputs, each input, the count of outputs, and each output's encoding where the earlier ones end |
| Crypto.SizedByLength | crypto/encode.go:21-27 | a transfer whose encoding is shorter than 2^32 bytes is sized |
| Crypto.AppendValueEncoding | crypto/encode.go:43-49 | the buffer grows by exactly the value's encoding |
| Crypto.AppendTransferEncoding | crypto/encode.go:29-41 | the loops append exactly the transfer's encoding |
| Crypto.EncodedTransferLen | crypto/encode.go:21-27 | the accumulated length is the length of the encoding, so the reserved capacity is exact |
| Crypto.DecodeBytesAt | crypto/decode.go:122-135 | the offset reader returns what the prefix parser returns and never passes the end of the data |
| Crypto.DecodeValueAt | crypto/decode.go:73-120 | the same for a value, errors included |
| Crypto.DecodeHashesAt | crypto/decode.go:39-48 | the loop over the input hashes, its short-input error included |
| Crypto.DecodeValuesAt | crypto/decode.go:56-64 | the loop over the output values, each error passed on |
| Crypto.DecodeTransferAt | crypto/decode.go:32-71 | the offset decoder returns what the parser specification returns, errors included, and ends within the data |
| Crypto.DecodeTransferBytes | crypto/decode.go:20-30 | the public decoder, with the trailing-bytes check and the recomputed identifier |
| Protocol.DecodeTxRoundTrip | protocol/payload_tx.go:18-38 | a TX payload gives back its transfer bytes and signature |
| Protocol.EncodeTxRoundTrip | protocol/payload_tx.go:24-52 | an accepted TX payload is exactly the encoding of its parts |
| Protocol.ProofRoundTrip | protocol/payload_proof.go:41-79 | every proof response survives, negative 64-bit fields included |
| Protocol.ProofDecodeEncode | protocol/payload_proof.go:50-97 | a proof payload is accepted if and only if it has 50 bytes and both flags are 0 or 1, and then it is the encoding of the result |
| Protocol.ErrorRoundTrip | protocol/payload_error.go:14-34 | an ERROR payload gives back the referenced ID and the code |
| Protocol.ErrorDecodeEncode | protocol/payload_error.go:20-41 | an accepted ERROR payload is exactly the encoding of the result |
| Protocol.MessageRoundTrip | protocol/message.go:28-63 | a message whose fields fit the wire decodes to itself |
| Protocol.MessageDecodeEncode | protocol/message.go:37-63 | accepted bytes are exactly the encoding of the message, whose type is one of the seven |
| Protocol.MessageRoundTripIff | protocol/message.go:28-63 | the round trip holds if and only if ID, type and payload length fit the wire |
| Protocol.MessageLayout | protocol/message.go:37-63 | which bytes are a message, and by offset its ID, timestamp, TTL, type code 0 to 6 and payload |
| Protocol.HashLayout | protocol/payload_proof.go:27-35 | INV, GET and PROOF_REQ payloads are the 32 bytes of the hash, and nothing else is accepted |
| Protocol.ProofLayout | protocol/payload_proof.go:50-97 | by offset: target, seen iff byte 32 is 1, seen time, conflict iff byte 41 is 1, distance |
| Protocol.TxLayout | protocol/payload_tx.go:24-52 | which bytes are a TX payload: the transfer's bytes and then the signature, each after its length |
| Protocol.ErrorLayout | protocol/payload_error.go:20-34 | which bytes are an ERROR payload: the referenced ID and the code after its length |
| Protocol.FrameLayout | transport/transport.go:30-47 | a frame is read iff its four-byte length is at most 16 MiB and that many bytes that are a message follow |
| Protocol.StreamRoundTrip | transport/transport.go:22-47 | any sequence of framable messages, framed, concatenated and cut anywhere inside the next frame, is read back as the same sequence and then end of stream |
| Protocol.StreamDecodeEncode | transport/transport.go:30-47 | for any bytes at all, what is delivered was framed canonically in what was consumed |
| Protocol.TxOverTheWire | protocol/payload_tx.go:14-22 | end to end, a TX message that fits a frame delivers the transfer's content and signature |
| Protocol.EncodeMessageFrame | transport/transport.go:22-28 | the byte slice filled in place is the length prefix and the message |
| Protocol.Reader.ReadFull | transport/transport.go:31-42 | a read that runs out of bytes consumes them and fails |
| Protocol.Reader.DecodeMessageFrame | transport/transport.go:30-47 | the reader's steps are the frame specification: result and bytes left |
| Replay.ReplayCache.constructor | protocol/replay.go:18-26 | an empty cache with its TTL |
| Replay.ReplayCache.MarkSeen | protocol/replay.go:28-34 | the entry of the ID becomes clock plus TTL, wrapping at 64 bits |
| Replay.ReplayCache.PruneExpired | protocol/replay.go:41-47 | the loop removes exactly the expired entries |
| Replay.HandledIff | protocol/replay.go:28-47 | on any trace under one nondecreasing clock, a message gets past the cache if and only if its ID was not handled within the TTL; duplicates do not extend the window |
| Replay.ExpiresIffPositive | protocol/replay.go:28-47 | an entry stays forever if and only if its clock plus the TTL is not a positive int64, so too early or wrapped around |
| Replay.InputTracker.constructor | protocol/replay.go:53-55 | nothing is consumed yet |
| Replay.InputTracker.ConsumeInputs | protocol/replay.go:70-86 | succeeds if and only if the inputs are new and distinct, and then marks exactly them; a failing batch marks nothing |
| Selection.ProofWeightRemove | node/selection.go:166-176 | the weight does not depend on the order in which the proof map is visited |
| Selection.RankByArrivalSorts | node/selection.go:138-149 | ranking is a sorted permutation |
| Selection.RanksEarlierFirst | node/selection.go:141-147 | earlier arrivals come first, and smaller identifiers where arrivals are equal |
| Selection.RankIsIdentity | node/selection.go:138-149 | ranking an already ordered list changes nothing |
| Selection.BetterScoreIsStrictTotalOrder | node/selection.go:98-115 | on breakdowns of different transfers the comparison is a strict total order |
| Selection.UniqueWinner | node/selection.go:86-96 | the loop returns the one candidate that beats every other |
| Selection.SelectBestOrderFree | node/selection.go:86-96 | the choice does not depend on the order of the list passed in |
| Selection.Dominance | node/selection.go:117-191 | an earlier arrival with no fewer peers, proof weight and cleanliness beats its rival at every time at which neither age wraps around |
| Selection.Saturation | node/selection.go:151-164 | at any two times at which every candidate is at least 30 seconds old, and no age wraps around, winner and score are the same |
| Selection.SupportRaisesScore | node/selection.go:117-191 | a new peer or a first supporting proof strictly raises the score and leaves every rival's unchanged |
| Selection.WinnerKeepsWinning | node/selection.go:86-136 | a winner that gains evidence stays the winner, with a higher score |
| Selection.ConfidenceNeedsEvidence | node/finality.go:9-20 | reaching a threshold needs a peer or a supporting proof; from 50,000 on it needs a peer |
| Selection.SupportRaisesConfidence | node/finality.go:51-68 | new evidence strictly raises the confidence |
| Selection.WeightInCounts | node/selection.go:166-202 | a supporting proof weighs 1 from distance 0 or 1, 0.6 from 2 and 0.3 from anywhere else; the weight is the sum over the counts |
| Selection.TimeStabilityInSeconds | node/selection.go:151-164 | the age, as an int64 number, counts from 0 up to 30 in thirtieths |
| Selection.ScoreInNumbers | node/selection.go:117-136 | the score from the rank, the number of peers, the age, and the numbers of rivals, supporting proofs by distance and conflict reports |
| Selection.ConfidenceInNumbers | node/finality.go:51-68 | the confidence from the number of peers, the age and the numbers of supporting proofs by distance |
| Selection.FartherProofLowers | node/selection.go:193-202 | replacing a supporting proof by one from a farther class strictly lowers score and confidence, and no rival's |
| Selection.BetterScoreIsLexicographic | node/selection.go:98-115 | the comparison is the lexicographic order on the five numbers, larger first, then on identifiers, smaller first |
| Selection.OvertakesIff | node/selection.go:86-136 | exactly what it takes for the later of two settled rivals to win: gains in peers and proofs worth more than 0.175 |
| Selection.FourProofsOvertake | node/selection.go:86-202 | with equally many peers and no proofs for the earlier one, it takes at least four nearby supporters |
| Coherence.ScanSelected | node/finality.go:28-37 | the loop with break finds a transfer selected if and only if every input's lineage names it, and ends with the last input's score |
| Coherence.RefreshesUnique | node/selection.go:56-84 | deciding a set of inputs at one time has one result, whatever the order of visits |
| Coherence.RefreshOneMore | node/selection.go:67-84 | deciding one more input, with members of earlier inputs visited again, is deciding the larger set at once |
| Coherence.RecomputeTransferRefreshes | node/selection.go:56-65 | recomputing a transfer decides exactly its inputs anew; the closing finality update changes nothing |
| Coherence.RefreshRepairs | node/selection.go:56-84 | deciding the touched inputs makes both caches right everywhere if they were right elsewhere |
| Invariants.SameCoreKeepsInv | node/node.go:116-121 | changes to the replay cache, consumed inputs, peers and sent log keep the invariant |
| Invariants.ProofKeepsInv | node/handlers.go:80-96 | recording a proof and recomputing keeps the invariant |
| Invariants.CopyKeepsInv | node/store.go:14-21 | observing a repeat copy and recomputing keeps the invariant |
| Invariants.InsertKeepsInv | node/store.go:23-39 | storing a new transfer and recomputing only its inputs keeps the invariant |
| Runs.DecodedTransferFacts | node/handlers.go:35-46 | an accepted TX payload holds the canonical bytes of the normalized transfer, so the stored bytes are its encoding |
| Runs.StoreKeepsInv | node/handlers.go:50-54 | storing any valid transfer keeps the invariant before anything is sent |
| Runs.OnMessageKeepsInv | node/node.go:116-139 | any message of any type, from anyone, keeps the invariant |
| Runs.AcceptLocalKeepsInv | node/node.go:141-162 | any local submission keeps the invariant |
| Runs.SeedKeepsInv | node/node.go:71-74 | seeding any value keeps the invariant |
| Runs.Run | node/node.go:35-74 | the invariant holds after every run of deliveries, submissions, seeds and connections |
| Promises.ConflictSetsExact | node/store.go:57-65 | on every run the conflict sets list exactly the stored spenders of each input, once each, in arrival order; ranking is the identity; hasConflict holds iff another stored transfer shares an input; arrivalSeq counts the stored transfers |
| Promises.InvCoherent | node/selection.go:67-84 | each selected lineage is the from-scratch choice over the current stores at its own time, and inputs with a lineage are those with a conflict set |
| Promises.InvExclusive | node/finality.go:22-49 | finality covers exactly the stored transfers, a transfer is past PENDING iff it is selected on all inputs, and two that share an input are never both past PENDING |
| Promises.CachesRight | node/selection.go:56-96 | both of these hold in every reachable state |
| Promises.FinalityNeedsEvidence | node/finality.go:39-80 | on every run a FINAL transfer has a peer or positive proof weight, and one with computed amount 50,000 or more has a peer |
| Promises.ContentAddressed | node/store.go:14-39 | on every run both stores are keyed by the hash of what they hold, and each record's peers are the observations |
| Promises.SignerAccepted | node/handlers.go:155-171 | an owner is accepted iff the inputs are a run of ownerless values followed by values it owns |
| Promises.OwnersAgreeIff | node/handlers.go:155-171 | among accepted inputs all belong to the signer iff the first one has an owner |
| Promises.OwnerlessInputAccepted | node/handlers.go:155-171 | at a node seeded with an ownerless and an owned value, a transfer of both is valid in one order iff the owner signed it, and rejected in the other |
| Promises.CrossNodeAgreement | node/handlers.go:98-129 | two nodes that know a transfer's inputs give it the same verdict, whatever else they hold, unless a value collides or expiry differs |
| Promises.NewPeerGains | node/store.go:41-55 | a first observation from a named peer is one more piece of evidence for that transfer only |
| Promises.NewProofGains | node/store.go:67-74 | so is a first supporting proof |
| Promises.EvidenceKeepsInput | node/selection.go:67-136 | at one clock value new evidence keeps a selected input with a strictly higher score |
| Promises.EvidenceMonotone | node/finality.go:22-57 | for a transfer selected on all inputs it raises score and confidence, and FINAL stays FINAL |
| Rules.SignerStops | node/handlers.go:155-171 | the scan stops at the first input that is unknown or belongs to someone else, with that error; past all, the signer is the last input's owner |
| Rules.VerdictExact | node/handlers.go:98-129 | for each of the nine outcomes, exactly which transfers get it: the first rule broken in the order of the code, expiry being nonzero and not after the clock |
| Rules.AmountIsTotal | node/finality.go:82-88 | the accumulated amount is the unbounded sum of the outputs modulo 2^64 |
| Rules.AmountAddsUp | node/finality.go:82-88 | it is the amount of a single output, and adds up modulo 2^64 over lists |
| Rules.StatusExact | node/finality.go:39-80 | on every run a transfer is FINAL iff selected on all inputs with cached confidence at least 0.45, 0.70 or 0.88 by its total, SELECTED iff selected without it, PENDING iff not selected |
| Rules.ScoreExact | node/finality.go:28-39 | on every run the score shown is that of the last input before the first one not selected for the transfer, 0 if there is none |
| Rules.ConfidenceExact | node/finality.go:51-68 | on every run the cached confidence of a selected transfer is that of the evidence held, at the time one of its inputs was decided, in numbers |
| Rules.UncontestedSelected | node/selection.go:67-84 | a stored transfer whose inputs no other stored transfer spends is selected on all of them |
| Rules.OneProofMakesFinal | node/handlers.go:80-96 | a transfer below 50,000 known for 30 seconds is FINAL after one supporting proof from distance 0 or 1 iff it is selected, which it is without a rival |
| Histories.RanksArePermanent | node/store.go:57-65 | later states keep every record and only extend conflict sets at the end |
| Histories.ArrivalIsTimeOrder | node/store.go:23-30 | under a clock that never goes back, an earlier arrival was seen no later |
| Histories.EarlierDominates | node/selection.go:86-136 | on every such run a dominated rival is never the from-scratch choice, at any time at which the two ages do not wrap around |
| Histories.SettledEntry | node/selection.go:67-77 | recomputing at another time with all competitors at least 30 seconds old changes only the timestamp |
| Histories.LineageWellFounded | node/handlers.go:155-171 | on every run each input of each stored transfer has a finite provenance through earlier arrivals that ends in seeded values |
| Histories.ConsumedIsUnion | protocol/replay.go:70-86 | consumed is exactly what accepted submissions spent |
| Histories.LocalSingleUse | node/node.go:141-148 | over every run the local transfers that get past ConsumeInputs are pairwise disjoint in their inputs |
| Histories.DispatchedOncePerWindow | node/node.go:116-121 | on every run with one shared clock a message reaches its handler iff none with its ID did within 60 seconds |
| Histories.CacheExact | protocol/replay.go:28-47 | on every run, whatever the two clocks do, an ID is remembered iff some event made its entry and no later delivery found that expired, and then with that event's expiry |
| Histories.DispatchedUnderTwoClocks | node/node.go:116-121 | with unrelated clocks, a message reaches its handler iff a delivery after every earlier handling of its ID, possibly its own, found that entry expired |
| Records.PeersAreConnections | node/node.go:52-61 | on every run the peers are those connected, and one is attached iff some connection attached it |
| Records.ValuesExact | node/store.go:23-34 | on every run the known values are the seeded ones and the outputs of the stored transfers |
| Records.StoredWhen | node/store.go:23-30 | on every run first-seen time and arrival number of a record are the clock of the event that stored it and one more than the number stored before |
| Records.ApplyEvidence | node/store.go:41-74 | an event changes at most one observation and one proof: of the valid copy it shows, or the attestation it carries |
| Records.ObservationsExact | node/store.go:41-55 | on every run a peer is recorded for a transfer at a time iff its last valid copy of it was handled then |
| Records.ProofsExact | node/store.go:67-74 | on every run the proof kept from a peer about a transfer is the last one it sent, field by field |
| Records.ApplyDecides | node/selection.go:56-84 | an event decides anew, at its own clock, exactly the inputs of the transfer it is about; every other lineage stays as it is |
| Records.DecisionTimes | node/selection.go:73-77 | on every run an input has a lineage with a time iff the last event about a transfer that spends it was handled then |
| Confluence.ProofResponseAbsorbs | node/handlers.go:80-96 | the handler of PROOF_RESP adds one proof and recomputes |
| Confluence.RepeatCopyAbsorbs | node/handlers.go:50-57 | a valid copy of a stored transfer adds one observation, recomputes and sends nothing |
| Confluence.AbsorbsCommute | node/selection.go:56-84 | two compatible pieces of evidence, each followed by its own recomputation, commute |
| Confluence.AnyOrder | node/store.go:41-74 | every order of a compatible batch ends in the same state |
| Confluence.MessagesInAnyOrder | node/node.go:116-139 | PROOF_RESP messages and valid repeat copies received at one clock value leave the same stores and caches in every delivery order |
| Confluence.LastProofWins | node/handlers.go:80-96 | after handling two proofs from one sender about one transfer, the second one stands |
| Confluence.CommuteIffCompatible | node/handlers.go:80-96 | handling two pieces of evidence in either order gives one state iff they are not two different proofs from one sender about one transfer |
| Nodes.Node.constructor | node/node.go:35-50 | a new node is empty, with replay TTL 60, and satisfies the invariant |
| Nodes.Node.ProofWeightOf | node/selection.go:166-176 | the loop over the proof map computes the weight in any order |
| Nodes.Node.ConflictCleanliness | node/selection.go:178-191 | the two accumulators give the cleanliness |
| Nodes.Node.RankByArrivalSeq | node/selection.go:138-149 | the sorted copy is the ranking of the candidates |
| Nodes.Node.ScoreTransfer | node/selection.go:117-136 | the five weighted components from the fields give the score |
| Nodes.Node.SelectBestOf | node/selection.go:86-96 | the loop returns the choice |
| Nodes.Node.RecomputeSelectionForInput | node/selection.go:67-84 | updates one lineage and the finality of its members, and nothing else |
| Nodes.Node.RecomputeSelectionForTransfer | node/selection.go:56-65 | updates the caches for the inputs of one transfer in order, then its finality |
| Nodes.Node.ComputeConfidence | node/finality.go:51-68 | the confidence of the evidence held |
| Nodes.Node.TransferAmountOf | node/finality.go:82-88 | the sum of the outputs modulo 2^64 |
| Nodes.Node.UpdateFinalityForTransfer | node/finality.go:22-49 | writes the from-scratch finality entry, nothing for unknown transfers |
| Nodes.Node.ObserveFrom | node/store.go:41-55 | records the observation and its copy in the record, nothing for an empty sender |
| Nodes.Node.AddConflictMembership | node/store.go:57-65 | appends the transfer once to the conflict set of each input |
| Nodes.Node.NormalizeTransfer | node/handlers.go:144-153 | recomputes every identifier on copied outputs |
| Nodes.Node.UpsertTransfer | node/store.go:14-39 | either observes a known transfer or stores a new one with outputs, observation and memberships |
| Nodes.Node.PutProof | node/store.go:67-74 | one proof per sender and transfer |
| Nodes.Node.ResolveSignerOf | node/handlers.go:155-171 | the owner, or the first error in input order |
| Nodes.Node.ValidateTransfer | node/handlers.go:98-129 | the first failing rule in the order of the code, or acceptance |
| Nodes.Node.TransferHasConflict | node/handlers.go:131-142 | whether some input has more than one spender |
| Nodes.Node.Send | node/node.go:164-168 | logs and hands over a message; at every send both caches are right |
| Nodes.Node.PeerIDsExcept | node/node.go:176-186 | the other peers in strictly increasing order |
| Nodes.Node.AnnounceTo | node/handlers.go:58-62 | an INV to each peer in order, up to the first failure |
| Nodes.Node.StoreTransfer | node/handlers.go:50-54 | stores and caches after a valid transfer |
| Nodes.Node.HandleINV | node/handlers.go:12-21 | GET back unless the transfer is known |
| Nodes.Node.HandleGET | node/handlers.go:23-33 | TX back if the transfer is known |
| Nodes.Node.HandleTX | node/handlers.go:35-64 | decode, validate, store, announce if new |
| Nodes.Node.HandleProofREQ | node/handlers.go:66-78 | always an answer, with first-seen time and conflict if known |
| Nodes.Node.HandleProofRESP | node/handlers.go:80-96 | records the proof and recomputes a known target |
| Nodes.Node.Admit | node/node.go:117-121 | prune, check, mark |
| Nodes.Node.OnMessage | node/node.go:116-139 | the whole new state and error for every message, and the invariant |
| Nodes.Node.AcceptLocalTransfer | node/node.go:141-162 | the whole new state and error for every submission, and the invariant |
| Nodes.Node.SeedValue | node/node.go:71-74 | the value under its recomputed identifier |
| Nodes.Node.AddPeer | node/node.go:52-54 | the peer is marked as having its node object |
| Nodes.Node.AddPeerID | node/node.go:56-61 | the peer without one, unless it is known |
| Relay.SendableArrives | protocol/payload_tx.go:14-38 | a sendable transfer arrives as the same bytes, identifier and signature |
| Relay.AnnounceForm | node/handlers.go:58-62 | announcements are INVs to the peers in order, up to and including the first send that fails, whose error is returned |
| Relay.HandleTxSends | node/handlers.go:35-64 | TX either stores its transfer and announces it, or stores and sends nothing; its error is that of decoding, of validation or of the failing send |
| Relay.AcceptLocalSends | node/node.go:141-162 | a submission past ConsumeInputs is announced to the peers, new or not, up to a failing send; any other changes nothing and gets its verdict, or "input consumed" |
| Replies.InvIsAnswered | node/handlers.go:12-21 | INV bytes (type 0) for an unknown transfer are answered by GET bytes (type 1) with the same hash and TTL, made now; for a known one by nothing; other lengths fail |
| Replies.GetIsAnswered | node/handlers.go:23-33 | GET bytes (type 1) for a stored transfer are answered by TX bytes (type 2) with its canonical bytes and signature; for an unknown one by nothing |
| Replies.ProofIsAnswered | node/handlers.go:66-78 | PROOF_REQ bytes (type 3) are answered by PROOF_RESP bytes (type 4): same target, seen iff stored, first-seen time, conflict iff another stored transfer shares an input, distance 1 |
| Replies.ReplayIsIgnored | node/node.go:116-121 | a replay changes nothing but the replay cache |
| Replies.RestIsSilent | node/node.go:122-139 | types 4 to 6 are not answered; 5 and 6 change nothing; 4 fails iff its payload does not decode |
| Replies.TransferIsAnnounced | node/handlers.go:35-64 | TX bytes (type 2) with a new valid transfer are followed by INV bytes with its hash and the same TTL to each peer but the sender, in increasing order until a send fails; any other TX by nothing |
| Replies.SubmissionIsAnnounced | node/node.go:141-162 | an accepted submission is followed by INV bytes with TTL 30 to each peer; any other by nothing |
| Replies.AttestationCounts | node/handlers.go:66-96 | end to end, the answer to a PROOF_REQ, as a first proof, adds exactly 1 to the weight at the asker iff the answerer stores the transfer uncontested, and otherwise nothing |
| Gossip.OnMessageProgress | node/handlers.go:12-64 | a handled message makes a node send less than it weighs, or store what it carries |
| Gossip.DeliveryDecreases | node/handlers.go:12-64 | every delivery and every loss strictly lowers the potential, whatever the clocks, IDs and failing sends |
| Gossip.SubmitCharge | node/node.go:141-162 | a submission raises the potential by at most a stated amount |
| Gossip.InjectCharge | internal/cli/demo.go:162-169 | so does any packet from outside, a proof request for one |
| Gossip.RunsAreFinite | node/handlers.go:12-96 | on every run of the network submissions and outside packets bound the number of deliveries, although TTL is copied unchanged |
| Quiescence.AcceptedIffSigned | node/handlers.go:98-129 | every prepared node accepts the target's content exactly when its signature verifies, whatever else it holds |
| Quiescence.MessageHandled | node/handlers.go:12-64 | INV is answered by GET, GET by the signed transfer, the transfer is stored and announced to all other peers |
| Quiescence.LinksCovered | node/handlers.go:12-64 | at every moment of a reliable run every link from a holder to a node without the transfer has an INV or TX one way or a GET the other way in flight |
| Quiescence.QuietNetworkHasSpread | node/handlers.go:58-62 | with nothing left in flight every node reachable from a holder holds the transfer, whatever the delivery order |
| Flood.Cluster.constructor | node/node.go:35-61 | nodes that share nothing, with attached peers among them |
| Flood.Cluster.Send | node/node.go:164-174 | logs, then fails with "unknown peer" and changes nothing else if no node is attached, or else calls the receiver; terminates; on success the receiver has what was offered and whoever got the transfer passed it on; exact for messages that make the receiver send nothing |
| Flood.Cluster.OnMessage | node/node.go:116-139 | the same at the receiver; a replayed message, and one that makes it send nothing, has exactly the effect it has on a single node |
| Flood.Cluster.HandleINV | node/handlers.go:12-21 | undecodable or known: no effect; unknown from an unattached sender: "unknown peer" after logging the GET; on success the node has what the sender offered |
| Flood.Cluster.HandleGET | node/handlers.go:23-33 | undecodable or unknown: no effect; known, asked by an unattached peer: "unknown peer" after logging the TX; on success the asker has what was asked for |
| Flood.Cluster.HandleTX | node/handlers.go:35-64 | the first decoding or validation error and no effect; a known transfer changes exactly what one node stores; a new one is stored first, and on success its peers have it |
| Flood.Cluster.StoreReceived | node/handlers.go:50-63 | what is stored before anything is announced, exactly; storing a new transfer makes the recursion measure smaller |
| Flood.Cluster.AnnounceTo | node/handlers.go:58-62 | tells a prefix of the list, all of it iff there is no error; the peers told are attached and have the transfer |
| Flood.Cluster.HandleProofREQ | node/handlers.go:66-78 | the whole effect on all nodes: the answer with what is known is logged and recorded by the asker, or "unknown peer" |
| Flood.Cluster.HandleProofRESP | node/handlers.go:80-96 | the whole effect on all nodes: the proof is recorded and a known target recomputed |
| Flood.Cluster.AcceptLocalTransfer | node/node.go:141-162 | the whole flood terminates; a rejected transfer has no effect; no error for a transfer nobody had means every node reachable over peer links has it; for a signed transfer the nodes in reach accept, the only error is an unattached peer, none if all links are attached both ways, and with symmetric lists there is no error iff every link in reach is attached |
| Flood.Cluster.StoreLocal | node/node.go:149-161 | the same for storing and announcing a valid local transfer |
| Spreading.TargetAccepted | node/handlers.go:35-48 | a TX with the signed target decodes and validates at every ready node |
| Spreading.SuccessNeedsLinks | node/node.go:169-172 | if everyone who has the transfer passed it on, every link in reach is attached |

## Left out

- TCP connections, handshakes, goroutines and locks (`transport/tcp.go`): delivery is a bag of messages, or the direct call.
- The command line, RPC, demos and key handling (`cmd/`, `internal/cli/`).
- BLAKE3, Ed25519, XChaCha20-Poly1305 and random message IDs: the hash and the verification are parameters, message IDs are inputs of a step.
- Floating-point rounding and the numeric value of the logarithm: scores are reals; only monotonicity of the logarithm is used, and only where it is asked for.
- Clocks inside one handler: a handler reads the clock once per step, where the code may read it several times. In the flood the clock may move on with every message made.
- Freshness of cached scores against a moving clock: the code recomputes only on messages, so entries are right for the time they carry.
- The arrival counter and the map sizes are unbounded; `TransferAmount`, replay expiries and the age of a transfer wrap as in the code.
- Records are values in a map, not shared pointers, so aliasing of a record held elsewhere is not modelled.
- `sort.Slice` is an insertion sort here, proved to give the one sorted order.
- The two delivery modes are two classes: `Node` with an installed sender, and `Cluster` with the direct call; `Cluster` uses the methods of `Node` for everything but sending.
- Fixed 16- and 32-byte payload codecs (INV, GET, PROOF_REQ, ACK), the trailing-bytes check of the standalone value decoder, and the sorted views in `node/inspect.go`: they would only add easy members.
- The overflow check on the proof distance, which cannot fail where `int` has 64 bits; 32-bit platforms.
- Allocation for hostile counts in the decoders.
- Quiescence.QuietNetworkHasSpread: asks that nothing else hashes to the transfer's identifier and nothing with another owner to one of its inputs, that submitted transfers fit their length prefixes, and that outsiders do not send transfers in a node's name.
- Nodes.Node.AddPeer: the attached node is a flag here; which object it is, is fixed by its ID among the members of a cluster.
- Flood.Cluster.AcceptLocalTransfer: an empty peer ID is skipped when announcing, as in the code, so reachability is over peers with an ID.
