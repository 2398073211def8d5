/** The score of a candidate, the choice of a winner and the confidence in it (node/selection.go and
    node/finality.go), in exact arithmetic and as functions of the evidence a node holds. */
module Selection {
  import opened Bytes
  import opened Crypto

  /** A Go string; "" is the local node itself. */
  type PeerId = Bytes

  datatype ProofRecord = ProofRecord(peer: PeerId, seen: bool, seenTime: Int64, conflict: bool, distance: Int64)

  type Proofs = map<PeerId, ProofRecord>

  /** What a node knows about one transfer that competes for an input. */
  datatype Candidate = Candidate(txID: Hash, arrivalSeq: nat, firstSeen: Int64, peerCount: nat, proofs: Proofs)

  datatype Breakdown = Breakdown(
    txID: Hash, score: real, firstSeen: real, propagation: real, timeStability: real, neighborhood: real, cleanliness: real)

  /** n -> math.Log(1 + n), of which only this is used. */
  type LogCount = nat -> real

  ghost predicate LogLike(log: LogCount) {
    log(0) == 0.0 && forall m, n :: m < n ==> log(m) < log(n)
  }

  const STABILITY_TAU: int := 30

  // ---------------------------------------------------------------------------------------
  // Scores

  function DistanceWeight(distance: Int64): real {
    if distance == 0 || distance == 1 then 1.0 else if distance == 2 then 0.6 else 0.3
  }

  function RecordWeight(r: ProofRecord): real {
    if !r.seen || r.conflict then 0.0 else DistanceWeight(r.distance)
  }

  /** The sum over a Go map: Dafny picks the iteration order, ProofWeightRemove shows it is immaterial. */
  ghost function ProofWeight(proofs: Proofs): (w: real)
    ensures w >= 0.0
    decreases |proofs|
  {
    if proofs == map[] then 0.0
    else
      var p :| p in proofs;
      RemovedSize(proofs, p);
      RecordWeight(proofs[p]) + ProofWeight(proofs - {p})
  }

  lemma RemovedSize<K, V>(m: map<K, V>, k: K)
    requires k in m
    ensures |m - {k}| == |m| - 1
  {
    assert (m - {k}).Keys == m.Keys - {k};
    assert |m.Keys| == |m| && |(m - {k}).Keys| == |m - {k}|;
  }

  lemma {:induction false} ProofWeightRemove(proofs: Proofs, p: PeerId)
    requires p in proofs
    ensures ProofWeight(proofs) == RecordWeight(proofs[p]) + ProofWeight(proofs - {p})
    decreases |proofs|
  {
    var q :| q in proofs && ProofWeight(proofs) == RecordWeight(proofs[q]) + ProofWeight(proofs - {q});
    if q != p {
      RemovedSize(proofs, q);
      RemovedSize(proofs, p);
      ProofWeightRemove(proofs - {q}, p);
      ProofWeightRemove(proofs - {p}, q);
      assert proofs - {q} - {p} == proofs - {p} - {q};
    }
  }

  lemma ProofWeightAdd(proofs: Proofs, p: PeerId, r: ProofRecord)
    requires p !in proofs
    ensures ProofWeight(proofs[p := r]) == RecordWeight(r) + ProofWeight(proofs)
  {
    ProofWeightRemove(proofs[p := r], p);
    assert proofs[p := r] - {p} == proofs;
  }

  function Conflicting(proofs: Proofs): set<PeerId> {
    set p | p in proofs && proofs[p].conflict
  }

  function TimeStability(now: Int64, firstSeen: Int64): (t: real)
    ensures 0.0 <= t <= 1.0
  {
    var age := if Wrap64(now - firstSeen) < 0 then 0 else Wrap64(now - firstSeen);
    if age >= STABILITY_TAU then 1.0 else age as real / STABILITY_TAU as real
  }

  ghost function Neighborhood(proofs: Proofs): real {
    var w := ProofWeight(proofs);
    w / (w + 1.0)
  }

  /** Among `rivals` candidates (this one included) for an input. */
  function Cleanliness(rivals: nat, proofs: Proofs): real
    requires rivals > 0
  {
    var conflictSignals := rivals - 1 + |Conflicting(proofs)|;
    var maxSignals := rivals - 1 + |proofs|;
    1.0 - conflictSignals as real / (maxSignals as real + 1.0)
  }

  ghost function ScoreTx(log: LogCount, now: Int64, ranked: seq<Candidate>, rank: nat): Breakdown
    requires rank < |ranked|
  {
    var c := ranked[rank];
    var firstSeen := 1.0 / (1.0 + rank as real);
    var propagation := log(c.peerCount);
    var timeStability := TimeStability(now, c.firstSeen);
    var neighborhood := Neighborhood(c.proofs);
    var cleanliness := Cleanliness(|ranked|, c.proofs);
    var score := 0.35 * firstSeen + 0.20 * propagation + 0.20 * timeStability + 0.20 * neighborhood + 0.05 * cleanliness;
    Breakdown(c.txID, score, firstSeen, propagation, timeStability, neighborhood, cleanliness)
  }

  predicate BetterScore(left: Breakdown, right: Breakdown) {
    if left.score != right.score then left.score > right.score
    else if left.firstSeen != right.firstSeen then left.firstSeen > right.firstSeen
    else if left.propagation != right.propagation then left.propagation > right.propagation
    else if left.timeStability != right.timeStability then left.timeStability > right.timeStability
    else if left.neighborhood != right.neighborhood then left.neighborhood > right.neighborhood
    else left.txID < right.txID
  }

  // ---------------------------------------------------------------------------------------
  // Ranking by arrival: sort.Slice on a copy

  predicate ArrivesBefore(a: Candidate, b: Candidate) {
    a.arrivalSeq < b.arrivalSeq || (a.arrivalSeq == b.arrivalSeq && a.txID < b.txID)
  }

  function InsertByArrival(c: Candidate, s: seq<Candidate>): seq<Candidate> {
    if s == [] then [c]
    else if ArrivesBefore(s[0], c) then [s[0]] + InsertByArrival(c, s[1..])
    else [c] + s
  }

  function RankByArrival(s: seq<Candidate>): seq<Candidate> {
    if s == [] then [] else InsertByArrival(s[0], RankByArrival(s[1..]))
  }

  predicate InArrivalOrder(s: seq<Candidate>) {
    forall i, j | 0 <= i < j < |s| :: ArrivesBefore(s[i], s[j])
  }

  predicate DistinctIDs(s: seq<Candidate>) {
    forall i, j | 0 <= i < j < |s| :: s[i].txID != s[j].txID
  }

  lemma {:induction false} InsertByArrivalKeeps(c: Candidate, s: seq<Candidate>)
    ensures multiset(InsertByArrival(c, s)) == multiset(s) + multiset{c}
  {
    if s != [] {
      assert s == [s[0]] + s[1..];
      InsertByArrivalKeeps(c, s[1..]);
    }
  }

  lemma {:induction false} InsertByArrivalSorts(c: Candidate, s: seq<Candidate>)
    requires InArrivalOrder(s) && forall d <- s :: d.txID != c.txID
    ensures InArrivalOrder(InsertByArrival(c, s))
  {
    if s == [] {
    } else if ArrivesBefore(s[0], c) {
      InsertByArrivalSorts(c, s[1..]);
      InsertByArrivalKeeps(c, s[1..]);
      forall d | d in InsertByArrival(c, s[1..]) ensures ArrivesBefore(s[0], d) {
        assert d in multiset(s[1..]) + multiset{c};
      }
    } else {
      forall d | d in s ensures ArrivesBefore(c, d) {
        assert s[0] == d || d in s[1..];
      }
    }
  }

  lemma {:induction false} RankByArrivalSorts(s: seq<Candidate>)
    requires DistinctIDs(s)
    ensures InArrivalOrder(RankByArrival(s)) && multiset(RankByArrival(s)) == multiset(s)
  {
    if s != [] {
      RankByArrivalSorts(s[1..]);
      var r := RankByArrival(s[1..]);
      assert s == [s[0]] + s[1..];
      forall d | d in r ensures d.txID != s[0].txID {
        assert d in multiset(s[1..]);
      }
      InsertByArrivalSorts(s[0], r);
      InsertByArrivalKeeps(s[0], r);
    }
  }

  /** Earlier arrivals first, and smaller identifiers first where arrivals are equal. */
  lemma RanksEarlierFirst(s: seq<Candidate>)
    requires DistinctIDs(s)
    ensures var r := RankByArrival(s);
            forall i, j | 0 <= i < j < |r| :: r[i].arrivalSeq < r[j].arrivalSeq || (r[i].arrivalSeq == r[j].arrivalSeq && r[i].txID < r[j].txID)
  {
    RankByArrivalSorts(s);
  }

  lemma {:induction false} ArrivalOrderUnique(a: seq<Candidate>, b: seq<Candidate>)
    requires InArrivalOrder(a) && InArrivalOrder(b) && multiset(a) == multiset(b)
    ensures a == b
  {
    hide InArrivalOrder;
    assert |a| == |multiset(a)| == |multiset(b)| == |b|;
    if a != [] {
      SameFirst(a, b);
      RestOf(a);
      RestOf(b);
      ArrivalOrderUnique(a[1..], b[1..]);
    }
  }

  lemma RestOf(s: seq<Candidate>)
    requires InArrivalOrder(s) && s != []
    ensures InArrivalOrder(s[1..]) && s == [s[0]] + s[1..] && multiset(s[1..]) == multiset(s) - multiset{s[0]}
  {
    hide ArrivesBefore;
    assert s == [s[0]] + s[1..];
  }

  lemma SameFirst(a: seq<Candidate>, b: seq<Candidate>)
    requires InArrivalOrder(a) && InArrivalOrder(b) && multiset(a) == multiset(b) && a != [] && b != []
    ensures a[0] == b[0]
  {
    assert a[0] in multiset(b) && b[0] in multiset(a);
    var i :| 0 <= i < |b| && b[i] == a[0];
    var j :| 0 <= j < |a| && a[j] == b[0];
  }

  /** On a list kept in arrival order, ranking changes nothing. */
  lemma RankIsIdentity(s: seq<Candidate>)
    requires InArrivalOrder(s) && DistinctIDs(s)
    ensures RankByArrival(s) == s
  {
    RankByArrivalSorts(s);
    ArrivalOrderUnique(RankByArrival(s), s);
  }

  // ---------------------------------------------------------------------------------------
  // Choosing the best

  ghost function BestOfFirst(log: LogCount, now: Int64, ranked: seq<Candidate>, n: nat): Breakdown
    requires 0 < n <= |ranked|
  {
    if n == 1 then ScoreTx(log, now, ranked, 0)
    else
      var best := BestOfFirst(log, now, ranked, n - 1);
      var candidate := ScoreTx(log, now, ranked, n - 1);
      if BetterScore(candidate, best) then candidate else best
  }

  lemma {:induction false} RankedSize(s: seq<Candidate>)
    ensures |RankByArrival(s)| == |s|
  {
    if s != [] {
      RankedSize(s[1..]);
      InsertedSize(s[0], RankByArrival(s[1..]));
    }
  }

  lemma {:induction false} InsertedSize(c: Candidate, s: seq<Candidate>)
    ensures |InsertByArrival(c, s)| == |s| + 1
  {
    if s != [] {
      InsertedSize(c, s[1..]);
    }
  }

  ghost function SelectBest(log: LogCount, now: Int64, candidates: seq<Candidate>): Breakdown
    requires candidates != []
  {
    RankedSize(candidates);
    BestOfFirst(log, now, RankByArrival(candidates), |candidates|)
  }

  /** betterScore is a strict total order on breakdowns of different transfers. */
  lemma BetterScoreIsStrictTotalOrder(a: Breakdown, b: Breakdown, c: Breakdown)
    ensures !BetterScore(a, a)
    ensures BetterScore(a, b) ==> !BetterScore(b, a)
    ensures BetterScore(a, b) && BetterScore(b, c) ==> BetterScore(a, c)
    ensures a.txID != b.txID ==> BetterScore(a, b) || BetterScore(b, a)
  {}

  /** `w` ranks the candidate whose score beats every other. */
  ghost predicate Wins(log: LogCount, now: Int64, ranked: seq<Candidate>, w: nat)
    requires w < |ranked|
  {
    forall r: nat | r < |ranked| && r != w :: BetterScore(ScoreTx(log, now, ranked, w), ScoreTx(log, now, ranked, r))
  }

  lemma {:induction false} BestOfFirstWins(log: LogCount, now: Int64, ranked: seq<Candidate>, n: nat) returns (w: nat)
    requires 0 < n <= |ranked| && DistinctIDs(ranked)
    ensures w < n && BestOfFirst(log, now, ranked, n) == ScoreTx(log, now, ranked, w)
    ensures forall r: nat | r < n && r != w :: BetterScore(ScoreTx(log, now, ranked, w), ScoreTx(log, now, ranked, r))
  {
    if n == 1 {
      w := 0;
    } else {
      hide ScoreTx;
      var v := BestOfFirstWins(log, now, ranked, n - 1);
      var best, candidate := ScoreTx(log, now, ranked, v), ScoreTx(log, now, ranked, n - 1);
      w := if BetterScore(candidate, best) then n - 1 else v;
      ScoredIDs(log, now, ranked);
      forall r: nat | r < n && r != w ensures BetterScore(ScoreTx(log, now, ranked, w), ScoreTx(log, now, ranked, r)) {
        BetterScoreIsStrictTotalOrder(candidate, best, ScoreTx(log, now, ranked, r));
      }
    }
  }

  lemma ScoredIDs(log: LogCount, now: Int64, ranked: seq<Candidate>)
    ensures forall r: nat | r < |ranked| :: ScoreTx(log, now, ranked, r).txID == ranked[r].txID
  {}

  /** selectBest returns the score of the one candidate that beats all the others. */
  lemma UniqueWinner(log: LogCount, now: Int64, candidates: seq<Candidate>) returns (w: nat)
    requires candidates != [] && DistinctIDs(candidates)
    ensures var ranked := RankByArrival(candidates);
            |ranked| == |candidates| && w < |ranked| && Wins(log, now, ranked, w)
            && SelectBest(log, now, candidates) == ScoreTx(log, now, ranked, w)
            && forall v: nat | v < |ranked| && Wins(log, now, ranked, v) :: v == w
  {
    hide ScoreTx;
    RankedSize(candidates);
    RankByArrivalSorts(candidates);
    var ranked := RankByArrival(candidates);
    PermutedIDsDistinct(candidates, ranked);
    w := BestOfFirstWins(log, now, ranked, |ranked|);
    forall v: nat | v < |ranked| && Wins(log, now, ranked, v) ensures v == w {
      BetterScoreIsStrictTotalOrder(ScoreTx(log, now, ranked, v), ScoreTx(log, now, ranked, w), ScoreTx(log, now, ranked, w));
    }
  }

  lemma {:induction false} PermutedIDsDistinct(a: seq<Candidate>, b: seq<Candidate>)
    requires DistinctIDs(a) && multiset(a) == multiset(b)
    ensures DistinctIDs(b)
  {
    forall i, j | 0 <= i < j < |b| ensures b[i].txID != b[j].txID {
      if b[i].txID == b[j].txID {
        assert b[i] in multiset(a) && b[j] in multiset(a);
        var x :| 0 <= x < |a| && a[x] == b[i];
        var y :| 0 <= y < |a| && a[y] == b[j];
        assert b[i] == b[j];
        TwiceInMultiset(b, i, j);
        OnceInMultiset(a, x);
      }
    }
  }

  lemma TwiceInMultiset<T>(s: seq<T>, i: nat, j: nat)
    requires i < j < |s| && s[i] == s[j]
    ensures multiset(s)[s[i]] >= 2
  {
    assert s == s[..i] + [s[i]] + s[i + 1..j] + [s[j]] + s[j + 1..];
  }

  lemma OnceInMultiset(s: seq<Candidate>, i: nat)
    requires i < |s| && DistinctIDs(s)
    ensures multiset(s)[s[i]] == 1
  {
    assert s == s[..i] + [s[i]] + s[i + 1..];
    assert s[i] !in multiset(s[..i]) && s[i] !in multiset(s[i + 1..]);
  }

  /** The winner does not depend on the order of the list passed in. */
  lemma SelectBestOrderFree(log: LogCount, now: Int64, a: seq<Candidate>, b: seq<Candidate>)
    requires a != [] && DistinctIDs(a) && multiset(a) == multiset(b)
    ensures b != [] && SelectBest(log, now, a) == SelectBest(log, now, b)
  {
    assert |multiset(a)| == |a| && |multiset(b)| == |b|;
    PermutedIDsDistinct(a, b);
    RankByArrivalSorts(a);
    RankByArrivalSorts(b);
    ArrivalOrderUnique(RankByArrival(a), RankByArrival(b));
  }

  // ---------------------------------------------------------------------------------------
  // Order and monotonicity of the parts

  lemma NeighborhoodMonotone(p: Proofs, q: Proofs)
    requires ProofWeight(p) <= ProofWeight(q)
    ensures 0.0 <= Neighborhood(p) <= Neighborhood(q) < 1.0
    ensures ProofWeight(p) < ProofWeight(q) ==> Neighborhood(p) < Neighborhood(q)
  {
    ShareMonotone(ProofWeight(p), ProofWeight(q));
  }

  lemma ShareMonotone(v: real, w: real)
    requires 0.0 <= v <= w
    ensures 0.0 <= v / (v + 1.0) <= w / (w + 1.0) < 1.0
    ensures v < w ==> v / (v + 1.0) < w / (w + 1.0)
  {
    ShareForm(v);
    ShareForm(w);
    InverseAntitone(v + 1.0, w + 1.0);
  }

  lemma ShareForm(w: real)
    requires w >= 0.0
    ensures w / (w + 1.0) == 1.0 - 1.0 / (w + 1.0)
    ensures 0.0 < 1.0 / (w + 1.0) <= 1.0
  {}

  lemma InverseAntitone(x: real, y: real)
    requires 0.0 < x <= y
    ensures 0.0 < 1.0 / y <= 1.0 / x
    ensures x < y ==> 1.0 / y < 1.0 / x
  {
    assert 1.0 / x - 1.0 / y == (y - x) / (x * y);
  }

  /** The ages of both arrivals are int64 numbers: neither subtraction wraps around. */
  predicate AgesFit(now: Int64, early: Int64, late: Int64) {
    0 - TWO_63 <= now - late && now - early < TWO_63
  }

  lemma TimeStabilityAntitone(now: Int64, early: Int64, late: Int64)
    requires early <= late && AgesFit(now, early, late)
    ensures TimeStability(now, early) >= TimeStability(now, late)
  {}

  lemma RankIsStrict(i: nat, j: nat)
    requires i < j
    ensures 1.0 / (1.0 + i as real) > 1.0 / (1.0 + j as real)
  {
    InverseAntitone(1.0 + i as real, 1.0 + j as real);
  }

  // ---------------------------------------------------------------------------------------
  // Dominance and saturation

  /** An earlier arrival with no weaker evidence beats its rival at every time. */
  lemma Dominance(log: LogCount, now: Int64, ranked: seq<Candidate>, i: nat, j: nat)
    requires LogLike(log) && i < j < |ranked|
    requires ranked[i].firstSeen <= ranked[j].firstSeen && AgesFit(now, ranked[i].firstSeen, ranked[j].firstSeen)
    requires ranked[i].peerCount >= ranked[j].peerCount
    requires ProofWeight(ranked[i].proofs) >= ProofWeight(ranked[j].proofs)
    requires Cleanliness(|ranked|, ranked[i].proofs) >= Cleanliness(|ranked|, ranked[j].proofs)
    ensures ScoreTx(log, now, ranked, i).score > ScoreTx(log, now, ranked, j).score
    ensures BetterScore(ScoreTx(log, now, ranked, i), ScoreTx(log, now, ranked, j))
  {
    hide Cleanliness, TimeStability, Neighborhood;
    RankIsStrict(i, j);
    TimeStabilityAntitone(now, ranked[i].firstSeen, ranked[j].firstSeen);
    NeighborhoodMonotone(ranked[j].proofs, ranked[i].proofs);
  }

  /** Every candidate has been known for at least 30 seconds, and its age is an int64 number. */
  predicate Settled(now: Int64, candidates: seq<Candidate>) {
    forall c <- candidates :: 30 <= now - c.firstSeen < TWO_63
  }

  /** Once everything has settled, time alone never changes the winner or its score. */
  lemma Saturation(log: LogCount, now: Int64, later: Int64, candidates: seq<Candidate>)
    requires candidates != [] && DistinctIDs(candidates) && Settled(now, candidates) && Settled(later, candidates)
    ensures SelectBest(log, now, candidates) == SelectBest(log, later, candidates)
  {
    RankByArrivalSorts(candidates);
    RankedSize(candidates);
    var ranked := RankByArrival(candidates);
    forall c | c in ranked ensures c in candidates {
      assert c in multiset(candidates);
    }
    SaturatedPrefix(log, now, later, ranked, |ranked|);
  }

  lemma {:induction false} SaturatedPrefix(log: LogCount, now: Int64, later: Int64, ranked: seq<Candidate>, n: nat)
    requires 0 < n <= |ranked| && Settled(now, ranked) && Settled(later, ranked)
    ensures BestOfFirst(log, now, ranked, n) == BestOfFirst(log, later, ranked, n)
  {
    hide ScoreTx;
    SaturatedScore(log, now, later, ranked, n - 1);
    if n > 1 {
      SaturatedPrefix(log, now, later, ranked, n - 1);
    }
  }

  lemma SaturatedScore(log: LogCount, now: Int64, later: Int64, ranked: seq<Candidate>, r: nat)
    requires r < |ranked| && Settled(now, ranked) && Settled(later, ranked)
    ensures ScoreTx(log, now, ranked, r) == ScoreTx(log, later, ranked, r)
  {
    hide Cleanliness, Neighborhood, TimeStability;
    assert ranked[r] in ranked;
    SaturatedTime(now, ranked[r].firstSeen);
    SaturatedTime(later, ranked[r].firstSeen);
  }

  lemma SaturatedTime(now: Int64, firstSeen: Int64)
    requires 30 <= now - firstSeen < TWO_63
    ensures TimeStability(now, firstSeen) == 1.0
  {}

  // ---------------------------------------------------------------------------------------
  // More evidence

  /** `d` is `c` after one more observing peer, or after a first, supporting proof from a peer. */
  ghost predicate Supported(c: Candidate, d: Candidate) {
    || d == c.(peerCount := c.peerCount + 1)
    || exists p, r: ProofRecord :: p !in c.proofs && r.seen && !r.conflict && d == c.(proofs := c.proofs[p := r])
  }

  lemma NoNewConflict(proofs: Proofs, p: PeerId, r: ProofRecord)
    requires p !in proofs && !r.conflict
    ensures Conflicting(proofs[p := r]) == Conflicting(proofs) && |proofs[p := r]| == |proofs| + 1
  {
    RemovedSize(proofs[p := r], p);
    assert proofs[p := r] - {p} == proofs;
  }

  lemma CleanlinessOfSupport(rivals: nat, proofs: Proofs, p: PeerId, r: ProofRecord)
    requires rivals > 0 && p !in proofs && !r.conflict
    ensures Cleanliness(rivals, proofs[p := r]) >= Cleanliness(rivals, proofs)
  {
    hide Conflicting;
    var more := proofs[p := r];
    NoNewConflict(proofs, p, r);
    FractionAntitone((rivals - 1 + |Conflicting(proofs)|) as real, (rivals - 1 + |proofs|) as real + 1.0, (rivals - 1 + |more|) as real + 1.0);
  }

  lemma FractionAntitone(s: real, x: real, y: real)
    requires s >= 0.0 && 0.0 < x <= y
    ensures s / y <= s / x
  {
    InverseAntitone(x, y);
    assert s / y == s * (1.0 / y) && s / x == s * (1.0 / x);
  }

  /** New evidence strictly raises its transfer's score and touches no rival's. */
  lemma SupportRaisesScore(log: LogCount, now: Int64, ranked: seq<Candidate>, i: nat, d: Candidate)
    requires LogLike(log) && i < |ranked| && Supported(ranked[i], d)
    ensures ScoreTx(log, now, ranked[i := d], i).score > ScoreTx(log, now, ranked, i).score
    ensures forall r: nat | r < |ranked| && r != i :: ScoreTx(log, now, ranked[i := d], r) == ScoreTx(log, now, ranked, r)
  {
    var c := ranked[i];
    if d == c.(peerCount := c.peerCount + 1) {
      assert log(c.peerCount) < log(c.peerCount + 1);
    } else {
      var p, r: ProofRecord :| p !in c.proofs && r.seen && !r.conflict && d == c.(proofs := c.proofs[p := r]);
      ProofWeightAdd(c.proofs, p, r);
      NeighborhoodMonotone(c.proofs, d.proofs);
      CleanlinessOfSupport(|ranked|, c.proofs, p, r);
      hide Cleanliness, Neighborhood;
      assert ScoreTx(log, now, ranked[i := d], i).score > ScoreTx(log, now, ranked, i).score;
    }
  }

  lemma SupportKeepsOrder(ranked: seq<Candidate>, i: nat, d: Candidate)
    requires i < |ranked| && Supported(ranked[i], d) && InArrivalOrder(ranked) && DistinctIDs(ranked)
    ensures InArrivalOrder(ranked[i := d]) && DistinctIDs(ranked[i := d])
  {}

  /** The winner of an input keeps it, with a higher score, when it gains evidence. */
  lemma WinnerKeepsWinning(log: LogCount, now: Int64, ranked: seq<Candidate>, i: nat, d: Candidate)
    requires LogLike(log) && i < |ranked| && Supported(ranked[i], d)
    requires InArrivalOrder(ranked) && DistinctIDs(ranked)
    requires SelectBest(log, now, ranked).txID == ranked[i].txID
    ensures SelectBest(log, now, ranked[i := d]).txID == ranked[i].txID
    ensures SelectBest(log, now, ranked[i := d]).score > SelectBest(log, now, ranked).score
  {
    hide ScoreTx, SelectBest, Wins;
    var after := ranked[i := d];
    SupportKeepsOrder(ranked, i, d);
    RankIsIdentity(ranked);
    RankIsIdentity(after);
    var w := UniqueWinner(log, now, ranked);
    var v := UniqueWinner(log, now, after);
    ScoredIDs(log, now, ranked);
    ScoredIDs(log, now, after);
    assert w == i;
    SupportRaisesScore(log, now, ranked, i, d);
    WinnerAmong(log, now, ranked, i, after, v);
  }

  lemma WinnerAmong(log: LogCount, now: Int64, ranked: seq<Candidate>, i: nat, after: seq<Candidate>, v: nat)
    requires i < |ranked| == |after| && v < |after| && Wins(log, now, ranked, i) && Wins(log, now, after, v)
    requires ScoreTx(log, now, after, i).score > ScoreTx(log, now, ranked, i).score
    requires forall r: nat | r < |ranked| && r != i :: ScoreTx(log, now, after, r) == ScoreTx(log, now, ranked, r)
    ensures v == i
  {
    hide ScoreTx;
    assert v != i ==> BetterScore(ScoreTx(log, now, after, v), ScoreTx(log, now, after, i));
    assert v != i ==> BetterScore(ScoreTx(log, now, ranked, i), ScoreTx(log, now, ranked, v));
  }

  // ---------------------------------------------------------------------------------------
  // Confidence

  function WeightLogCount(log: LogCount, count: nat): real {
    if count == 0 then 0.0 else log(count)
  }

  ghost function Confidence(log: LogCount, now: Int64, c: Candidate): real {
    0.30 * WeightLogCount(log, c.peerCount) + 0.35 * TimeStability(now, c.firstSeen) + 0.35 * Neighborhood(c.proofs)
  }

  function Threshold(amount: nat): real {
    if amount < 50_000 then 0.45 else if amount < 500_000 then 0.70 else 0.88
  }

  /** Age alone stays below every threshold, age and any number of proofs below 0.70. */
  lemma ConfidenceNeedsEvidence(log: LogCount, now: Int64, c: Candidate, amount: nat)
    requires Confidence(log, now, c) >= Threshold(amount)
    ensures c.peerCount > 0 || ProofWeight(c.proofs) > 0.0
    ensures amount >= 50_000 ==> c.peerCount > 0
  {
    NeighborhoodMonotone(c.proofs, c.proofs);
    if ProofWeight(c.proofs) == 0.0 {
      assert Neighborhood(c.proofs) == 0.0;
    }
  }

  lemma SupportRaisesConfidence(log: LogCount, now: Int64, c: Candidate, d: Candidate)
    requires LogLike(log) && Supported(c, d)
    ensures Confidence(log, now, d) > Confidence(log, now, c)
  {
    if d == c.(peerCount := c.peerCount + 1) {
      assert log(c.peerCount) < log(c.peerCount + 1);
    } else {
      var p, r: ProofRecord :| p !in c.proofs && r.seen && !r.conflict && d == c.(proofs := c.proofs[p := r]);
      ProofWeightAdd(c.proofs, p, r);
      NeighborhoodMonotone(c.proofs, d.proofs);
    }
  }

  // ---------------------------------------------------------------------------------------
  // Scores and confidence in numbers

  /** The peers whose proof supports the transfer from distance 0 or 1. */
  function Near(proofs: Proofs): set<PeerId> {
    set p | p in proofs && proofs[p].seen && !proofs[p].conflict && 0 <= proofs[p].distance <= 1
  }

  function Second(proofs: Proofs): set<PeerId> {
    set p | p in proofs && proofs[p].seen && !proofs[p].conflict && proofs[p].distance == 2
  }

  /** Any other distance, negative ones included. */
  function Far(proofs: Proofs): set<PeerId> {
    set p | p in proofs && proofs[p].seen && !proofs[p].conflict && !(0 <= proofs[p].distance <= 2)
  }

  function WeightOfCounts(near: nat, second: nat, far: nat): real {
    near as real + 0.6 * second as real + 0.3 * far as real
  }

  /** A supporting proof weighs 1 from distance 0 or 1, 0.6 from 2 and 0.3 from anywhere else; reports
      of a conflict and of not having seen the transfer weigh nothing. */
  lemma {:induction false} WeightInCounts(proofs: Proofs)
    ensures ProofWeight(proofs) == WeightOfCounts(|Near(proofs)|, |Second(proofs)|, |Far(proofs)|)
    decreases |proofs|
  {
    if proofs == map[] {
      assert Near(proofs) == {} && Second(proofs) == {} && Far(proofs) == {};
    } else {
      var p :| p in proofs;
      var rest := proofs - {p};
      ProofWeightRemove(proofs, p);
      RemovedSize(proofs, p);
      WeightInCounts(rest);
      hide ProofWeight;
      CountsRemove(proofs, p);
    }
  }

  lemma CountsRemove(proofs: Proofs, p: PeerId)
    requires p in proofs
    ensures |Near(proofs)| == |Near(proofs - {p})| + if p in Near(proofs) then 1 else 0
    ensures |Second(proofs)| == |Second(proofs - {p})| + if p in Second(proofs) then 1 else 0
    ensures |Far(proofs)| == |Far(proofs - {p})| + if p in Far(proofs) then 1 else 0
  {
    var rest := proofs - {p};
    assert Near(rest) == Near(proofs) - {p};
    assert Second(rest) == Second(proofs) - {p};
    assert Far(rest) == Far(proofs) - {p};
    hide *;
    CountRemoved(Near(proofs), p);
    CountRemoved(Second(proofs), p);
    CountRemoved(Far(proofs), p);
  }

  lemma CountRemoved<T>(a: set<T>, p: T)
    ensures |a| == |a - {p}| + if p in a then 1 else 0
  {
    if p !in a {
      assert a - {p} == a;
    }
  }

  /** The age is the int64 number congruent to the difference of the clocks. */
  predicate IsAge(age: Int64, now: Int64, firstSeen: Int64) {
    (now - firstSeen - age) % 0x1_0000_0000_0000_0000 == 0
  }

  /** It counts from 0 up to 30. */
  function Ramp(age: Int64): real {
    (if age <= 0 then 0 else if age < 30 then age else 30) as real / 30.0
  }

  lemma TimeStabilityInSeconds(now: Int64, firstSeen: Int64, age: Int64)
    requires IsAge(age, now, firstSeen)
    ensures TimeStability(now, firstSeen) == Ramp(age)
  {
    WrapUnique(now - firstSeen, age);
  }

  lemma WrapUnique(x: int, y: Int64)
    requires (x - y) % 0x1_0000_0000_0000_0000 == 0
    ensures Wrap64(x) == y
  {}

  /** Everything that a score depends on, counted. */
  lemma ScoreInNumbers(log: LogCount, now: Int64, ranked: seq<Candidate>, rank: nat, age: Int64)
    requires rank < |ranked| && IsAge(age, now, ranked[rank].firstSeen)
    ensures var c, b := ranked[rank], ScoreTx(log, now, ranked, rank);
            var w := WeightOfCounts(|Near(c.proofs)|, |Second(c.proofs)|, |Far(c.proofs)|);
            var reports := |set p | p in c.proofs && c.proofs[p].conflict|;
            && b.txID == c.txID
            && b.firstSeen == 1.0 / (rank + 1) as real
            && b.propagation == log(c.peerCount)
            && b.timeStability == Ramp(age)
            && b.neighborhood == w / (w + 1.0)
            && b.cleanliness == (1 + |c.proofs| - reports) as real / (|ranked| + |c.proofs|) as real
            && b.score == 0.35 * b.firstSeen + 0.20 * b.propagation + 0.20 * b.timeStability + 0.20 * b.neighborhood + 0.05 * b.cleanliness
  {
    var c := ranked[rank];
    hide ProofWeight, Near, Second, Far, TimeStability, IsAge, Ramp;
    WeightInCounts(c.proofs);
    TimeStabilityInSeconds(now, c.firstSeen, age);
    assert Conflicting(c.proofs) == set p | p in c.proofs && c.proofs[p].conflict;
    CleanShare(|ranked|, |c.proofs|, |Conflicting(c.proofs)|);
  }

  lemma CleanShare(rivals: nat, proofs: nat, reports: nat)
    requires rivals > 0
    ensures 1.0 - (rivals - 1 + reports) as real / ((rivals - 1 + proofs) as real + 1.0)
         == (1 + proofs - reports) as real / (rivals + proofs) as real
  {
    OneMinusShare((rivals - 1 + reports) as real, (rivals + proofs) as real);
  }

  lemma OneMinusShare(a: real, d: real)
    requires d != 0.0
    ensures 1.0 - a / d == (d - a) / d
  {
    var q := a / d;
    assert (1.0 - q) * d == d - a;
    QuotientIs(d - a, d, 1.0 - q);
  }

  lemma QuotientIs(n: real, d: real, q: real)
    requires d != 0.0 && q * d == n
    ensures n / d == q
  {}

  function ConfidenceOfCounts(log: LogCount, peers: nat, age: Int64, near: nat, second: nat, far: nat): real {
    var w := near as real + 0.6 * second as real + 0.3 * far as real;
    0.30 * log(peers) + 0.35 * Ramp(age) + 0.35 * (w / (w + 1.0))
  }

  lemma ConfidenceInNumbers(log: LogCount, now: Int64, c: Candidate, age: Int64)
    requires LogLike(log) && IsAge(age, now, c.firstSeen)
    ensures Confidence(log, now, c)
         == ConfidenceOfCounts(log, c.peerCount, age, |Near(c.proofs)|, |Second(c.proofs)|, |Far(c.proofs)|)
  {
    hide ProofWeight, Near, Second, Far, TimeStability, IsAge, Ramp;
    WeightInCounts(c.proofs);
    TimeStabilityInSeconds(now, c.firstSeen, age);
  }

  // ---------------------------------------------------------------------------------------
  // What distance and arrival are worth

  predicate Farther(r: ProofRecord, s: ProofRecord) {
    && r.seen && !r.conflict && s.seen && !s.conflict
    && ((0 <= r.distance <= 1 && !(0 <= s.distance <= 1)) || (r.distance == 2 && !(0 <= s.distance <= 2)))
  }

  /** A supporting proof replaced by one from farther away costs score and confidence, and changes
      nothing for the rivals. */
  lemma FartherProofLowers(log: LogCount, now: Int64, ranked: seq<Candidate>, i: nat, p: PeerId, s: ProofRecord)
    requires i < |ranked| && p in ranked[i].proofs && Farther(ranked[i].proofs[p], s)
    ensures var d := ranked[i].(proofs := ranked[i].proofs[p := s]);
            && ScoreTx(log, now, ranked[i := d], i).score < ScoreTx(log, now, ranked, i).score
            && Confidence(log, now, d) < Confidence(log, now, ranked[i])
            && forall r: nat | r < |ranked| && r != i :: ScoreTx(log, now, ranked[i := d], r) == ScoreTx(log, now, ranked, r)
  {
    var c := ranked[i];
    var d := c.(proofs := c.proofs[p := s]);
    ProofWeightRemove(c.proofs, p);
    ProofWeightRemove(d.proofs, p);
    assert c.proofs - {p} == d.proofs - {p};
    NeighborhoodMonotone(d.proofs, c.proofs);
    hide ProofWeight;
    SameReports(c.proofs, p, s);
    assert Cleanliness(|ranked|, d.proofs) == Cleanliness(|ranked|, c.proofs);
    hide Cleanliness, TimeStability, Conflicting, Neighborhood;
  }

  lemma SameReports(proofs: Proofs, p: PeerId, s: ProofRecord)
    requires p in proofs && proofs[p].conflict == s.conflict
    ensures |Conflicting(proofs[p := s])| == |Conflicting(proofs)| && |proofs[p := s]| == |proofs|
  {
    var more := proofs[p := s];
    assert Conflicting(more) == Conflicting(proofs);
    assert |more| == |more.Keys| == |proofs.Keys| == |proofs|;
  }

  /** betterScore is the lexicographic order on five numbers, larger first, and then on identifiers,
      smaller first. */
  lemma BetterScoreIsLexicographic(a: Breakdown, b: Breakdown)
    ensures BetterScore(a, b) <==>
            var x := [a.score, a.firstSeen, a.propagation, a.timeStability, a.neighborhood];
            var y := [b.score, b.firstSeen, b.propagation, b.timeStability, b.neighborhood];
            (x == y && a.txID < b.txID) || exists k | 0 <= k < 5 :: x[..k] == y[..k] && x[k] > y[k]
  {
    var x := [a.score, a.firstSeen, a.propagation, a.timeStability, a.neighborhood];
    var y := [b.score, b.firstSeen, b.propagation, b.timeStability, b.neighborhood];
    if x != y {
      var k := FirstDifference(x, y);
      assert forall j | 0 <= j < k :: x[..k][j] == y[..k][j];
      assert forall j | 0 <= j < k :: x[j] == y[j];
      assert k == 0 || k == 1 || k == 2 || k == 3 || k == 4;
      assert (k > 0 ==> x[0] == y[0]) && (k > 1 ==> x[1] == y[1]) && (k > 2 ==> x[2] == y[2]) && (k > 3 ==> x[3] == y[3]);
      assert BetterScore(a, b) <==> x[k] > y[k];
      forall j | 0 <= j < 5 && x[..j] == y[..j] && x[j] > y[j] ensures j == k {
        assert forall h | 0 <= h < j :: x[..j][h] == y[..j][h];
      }
    }
  }

  lemma {:induction false} FirstDifference(x: seq<real>, y: seq<real>) returns (k: nat)
    requires |x| == |y| && x != y
    ensures k < |x| && x[..k] == y[..k] && x[k] != y[k]
  {
    if x[0] != y[0] {
      k := 0;
    } else {
      assert x == [x[0]] + x[1..] && y == [y[0]] + y[1..];
      var rest := FirstDifference(x[1..], y[1..]);
      k := rest + 1;
      assert x[..k] == [x[0]] + x[1..][..rest] && y[..k] == [y[0]] + y[1..][..rest];
    }
  }

  /** The candidate's evidence is `n` supporting proofs from nearby and no others. */
  predicate OnlyNearProofs(c: Candidate, n: nat) {
    |Near(c.proofs)| == |c.proofs| == n
  }

  /** Exactly what it takes to win against an earlier arrival, once both have settled. */
  lemma OvertakesIff(log: LogCount, now: Int64, ranked: seq<Candidate>, m: nat, n: nat)
    requires |ranked| == 2 && InArrivalOrder(ranked) && DistinctIDs(ranked) && Settled(now, ranked)
    requires OnlyNearProofs(ranked[0], m) && OnlyNearProofs(ranked[1], n)
    ensures SelectBest(log, now, ranked).txID == ranked[1].txID <==>
            0.20 * (log(ranked[1].peerCount) - log(ranked[0].peerCount))
            + 0.20 * (n as real / (n + 1) as real - m as real / (m + 1) as real)
            + 0.05 * ((n + 1) as real / (n + 2) as real - (m + 1) as real / (m + 2) as real) > 0.175
  {
    hide ProofWeight;
    NearScore(log, now, ranked, 0, m);
    NearScore(log, now, ranked, 1, n);
    hide ScoreTx;
    RankIsIdentity(ranked);
    hide RankByArrival, Near;
    assert BestOfFirst(log, now, ranked, 1) == ScoreTx(log, now, ranked, 0);
    ScoredIDs(log, now, ranked);
  }

  lemma NearScore(log: LogCount, now: Int64, ranked: seq<Candidate>, rank: nat, n: nat)
    requires rank < |ranked| && Settled(now, ranked) && OnlyNearProofs(ranked[rank], n)
    ensures ScoreTx(log, now, ranked, rank).score
         == 0.35 / (rank + 1) as real + 0.20 * log(ranked[rank].peerCount) + 0.20 + 0.20 * (n as real / (n + 1) as real)
            + 0.05 * ((n + 1) as real / (n + |ranked|) as real)
    ensures ScoreTx(log, now, ranked, rank).firstSeen == 1.0 / (rank + 1) as real
  {
    hide ProofWeight, ScoreTx;
    var c := ranked[rank];
    assert c in ranked;
    ScoreInNumbers(log, now, ranked, rank, now - c.firstSeen);
    OnlyNear(c.proofs);
  }

  lemma OnlyNear(proofs: Proofs)
    requires |Near(proofs)| == |proofs|
    ensures Second(proofs) == {} && Far(proofs) == {} && (set p | p in proofs && proofs[p].conflict) == {}
  {
    assert Near(proofs) <= proofs.Keys && |proofs.Keys| == |proofs|;
    SubsetOfSize(Near(proofs), proofs.Keys);
  }

  lemma SubsetOfSize<T>(a: set<T>, b: set<T>)
    requires a <= b && |a| == |b|
    ensures a == b
  {
    assert |b - a| == |b| - |a|;
  }

  /** Proofs alone can win: of two settled rivals seen by equally many peers, the later one wins against
      an earlier one without proofs if and only if at least four nearby peers support it. */
  lemma FourProofsOvertake(log: LogCount, now: Int64, ranked: seq<Candidate>, n: nat)
    requires |ranked| == 2 && InArrivalOrder(ranked) && DistinctIDs(ranked) && Settled(now, ranked)
    requires ranked[0].peerCount == ranked[1].peerCount
    requires OnlyNearProofs(ranked[0], 0) && OnlyNearProofs(ranked[1], n)
    ensures SelectBest(log, now, ranked).txID == ranked[1].txID <==> n >= 4
  {
    hide SelectBest, Near;
    OvertakesIff(log, now, ranked, 0, n);
    hide OnlyNearProofs;
    if n >= 4 {
      InverseAntitone(5.0, (n + 1) as real);
      InverseAntitone(6.0, (n + 2) as real);
      assert n as real / (n + 1) as real == 1.0 - 1.0 / (n + 1) as real;
      assert (n + 1) as real / (n + 2) as real == 1.0 - 1.0 / (n + 2) as real;
    } else {
      assert n == 0 || n == 1 || n == 2 || n == 3;
    }
  }
}
