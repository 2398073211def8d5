/** The replay cache and the local input tracker (protocol/replay.go). */
module Replay {
  import opened Bytes
  import opened Crypto
  import opened Protocol

  /** The cache maps a handled message ID to the second its entry expires, 0 meaning never. */
  type Seen = map<MessageId, Int64>

  predicate Expired(expiresAt: Int64, now: Int64) {
    0 < expiresAt <= now
  }

  function Pruned(seen: Seen, now: Int64): Seen {
    map m | m in seen && !Expired(seen[m], now) :: seen[m]
  }

  function Expiry(ttl: Int64, now: Int64): Int64 {
    if ttl > 0 then Wrap64(now + ttl) else 0
  }

  class ReplayCache {
    const defaultTTL: Int64
    var seen: Seen

    constructor (ttl: Int64)
      ensures defaultTTL == ttl && seen == map[]
    {
      defaultTTL, seen := ttl, map[];
    }

    /** `now` is the cache's own clock, which need not be the node's. */
    method MarkSeen(now: Int64, messageId: MessageId)
      modifies this
      ensures seen == old(seen)[messageId := Expiry(defaultTTL, now)]
    {
      var expiresAt := 0;
      if defaultTTL > 0 {
        expiresAt := Wrap64(now + defaultTTL);
      }
      seen := seen[messageId := expiresAt];
    }

    predicate IsSeen(messageId: MessageId)
      reads this
    {
      messageId in seen
    }

    method PruneExpired(now: Int64)
      modifies this
      ensures seen == Pruned(old(seen), now)
    {
      var todo := seen.Keys;
      while todo != {}
        invariant todo <= seen.Keys <= old(seen.Keys)
        invariant forall m <- seen :: seen[m] == old(seen)[m]
        invariant forall m <- old(seen) :: m in seen <==> m in todo || !Expired(old(seen)[m], now)
        decreases todo
      {
        var m :| m in todo;
        if seen[m] > 0 && seen[m] <= now {
          seen := seen - {m};
        }
        todo := todo - {m};
      }
    }
  }

  // ---------------------------------------------------------------------------------------
  // What the cache does over a run of arrivals

  datatype Arrival = Arrival(now: Int64, id: MessageId)

  /** OnMessage's prologue: prune, then mark the ID unless it is still there. */
  function Admit(ttl: Int64, seen: Seen, a: Arrival): Seen {
    var pruned := Pruned(seen, a.now);
    if a.id in pruned then pruned else pruned[a.id := Expiry(ttl, a.now)]
  }

  function SeenAfter(ttl: Int64, arrivals: seq<Arrival>): Seen {
    if arrivals == [] then map[]
    else Admit(ttl, SeenAfter(ttl, arrivals[..|arrivals| - 1]), arrivals[|arrivals| - 1])
  }

  /** The k-th arrival gets past the cache to a handler. */
  predicate Handled(ttl: Int64, arrivals: seq<Arrival>, k: nat)
    requires k < |arrivals|
  {
    arrivals[k].id !in Pruned(SeenAfter(ttl, arrivals[..k]), arrivals[k].now)
  }

  /** One nondecreasing clock whose expiries are positive and do not overflow: any Unix time does. */
  predicate Clocked(ttl: Int64, arrivals: seq<Arrival>) {
    && ttl > 0
    && (forall k | 0 <= k < |arrivals| :: 0 < arrivals[k].now + ttl < TWO_63)
    && (forall j, k | 0 <= j < k < |arrivals| :: arrivals[j].now <= arrivals[k].now)
  }

  lemma HandledInPrefix(ttl: Int64, arrivals: seq<Arrival>, n: nat, k: nat)
    requires k < n <= |arrivals|
    ensures Handled(ttl, arrivals[..n], k) == Handled(ttl, arrivals, k)
  {
    assert arrivals[..n][..k] == arrivals[..k];
  }

  /** The j-th arrival was handled and made the entry that `seen` has for its ID. */
  predicate Made(ttl: Int64, arrivals: seq<Arrival>, seen: Seen, j: nat)
    requires j < |arrivals|
  {
    Handled(ttl, arrivals, j) && arrivals[j].id in seen && seen[arrivals[j].id] == arrivals[j].now + ttl
  }

  /** Every entry was made by a handled arrival. */
  ghost predicate EntriesMade(ttl: Int64, arrivals: seq<Arrival>, seen: Seen) {
    forall m <- seen :: exists j: nat | j < |arrivals| :: Made(ttl, arrivals, seen, j) && arrivals[j].id == m
  }

  /** Every handled arrival whose window is open at `now` has its entry. */
  ghost predicate WindowsKept(ttl: Int64, arrivals: seq<Arrival>, seen: Seen, now: int) {
    forall j: nat | j < |arrivals| && Handled(ttl, arrivals, j) && arrivals[j].now + ttl > now :: Made(ttl, arrivals, seen, j)
  }

  lemma EntriesMadeStep(ttl: Int64, init: seq<Arrival>, last: Arrival)
    requires 0 < ttl && 0 < last.now + ttl < TWO_63
    requires EntriesMade(ttl, init, SeenAfter(ttl, init))
    ensures EntriesMade(ttl, init + [last], Admit(ttl, SeenAfter(ttl, init), last))
  {
    var arrivals, before, n := init + [last], SeenAfter(ttl, init), |init|;
    var after := Admit(ttl, before, last);
    assert arrivals[..n] == init;
    forall m | m in after ensures exists j: nat | j < |arrivals| :: Made(ttl, arrivals, after, j) && arrivals[j].id == m {
      if m == last.id && m !in Pruned(before, last.now) {
        assert Made(ttl, arrivals, after, n);
      } else {
        var j: nat :| j < n && Made(ttl, init, before, j) && init[j].id == m;
        HandledInPrefix(ttl, arrivals, n, j);
        assert Made(ttl, arrivals, after, j);
      }
    }
  }

  lemma MadeKept(ttl: Int64, init: seq<Arrival>, before: Seen, last: Arrival, j: nat)
    requires j < |init| && Made(ttl, init, before, j) && 0 < init[j].now + ttl && init[j].now + ttl > last.now
    ensures Made(ttl, init + [last], Admit(ttl, before, last), j)
  {
    hide Handled;
    assert (init + [last])[..|init|] == init;
    HandledInPrefix(ttl, init + [last], |init|, j);
  }

  lemma MadeLast(ttl: Int64, init: seq<Arrival>, last: Arrival)
    requires 0 < ttl && 0 < last.now + ttl < TWO_63 && Handled(ttl, init + [last], |init|)
    ensures Made(ttl, init + [last], Admit(ttl, SeenAfter(ttl, init), last), |init|)
  {
    hide SeenAfter;
    assert (init + [last])[..|init|] == init;
  }

  lemma WindowsKeptStep(ttl: Int64, init: seq<Arrival>, last: Arrival, now: int)
    requires 0 < ttl && 0 < last.now + ttl < TWO_63 && now <= last.now
    requires forall k: nat | k < |init| :: 0 < init[k].now + ttl
    requires WindowsKept(ttl, init, SeenAfter(ttl, init), now)
    ensures WindowsKept(ttl, init + [last], Admit(ttl, SeenAfter(ttl, init), last), last.now)
  {
    hide Handled, Made, SeenAfter, Admit;
    var arrivals, n := init + [last], |init|;
    assert arrivals[..n] == init;
    forall j: nat | j < |arrivals| && Handled(ttl, arrivals, j) && arrivals[j].now + ttl > last.now
      ensures Made(ttl, arrivals, Admit(ttl, SeenAfter(ttl, init), last), j)
    {
      if j < n {
        HandledInPrefix(ttl, arrivals, n, j);
        MadeKept(ttl, init, SeenAfter(ttl, init), last, j);
      } else {
        MadeLast(ttl, init, last);
      }
    }
  }

  lemma NothingHandled(ttl: Int64, now: int)
    ensures EntriesMade(ttl, [], map[]) && WindowsKept(ttl, [], map[], now)
  {}

  lemma ClockedPrefix(ttl: Int64, arrivals: seq<Arrival>, n: nat)
    requires Clocked(ttl, arrivals) && n <= |arrivals|
    ensures Clocked(ttl, arrivals[..n])
  {}

  lemma {:induction false} SeenAfterHandled(ttl: Int64, arrivals: seq<Arrival>)
    requires Clocked(ttl, arrivals)
    ensures EntriesMade(ttl, arrivals, SeenAfter(ttl, arrivals))
    ensures arrivals != [] ==> WindowsKept(ttl, arrivals, SeenAfter(ttl, arrivals), arrivals[|arrivals| - 1].now)
  {
    hide EntriesMade, WindowsKept, Admit, Handled, Clocked;
    NothingHandled(ttl, if arrivals == [] then 0 else arrivals[0].now);
    if arrivals != [] {
      var init, last := arrivals[..|arrivals| - 1], arrivals[|arrivals| - 1];
      assert arrivals == init + [last];
      ClockedPrefix(ttl, arrivals, |arrivals| - 1);
      SeenAfterHandled(ttl, init);
      HandledStep(ttl, init, last);
    }
  }

  lemma HandledStep(ttl: Int64, init: seq<Arrival>, last: Arrival)
    requires Clocked(ttl, init + [last])
    requires EntriesMade(ttl, init, SeenAfter(ttl, init))
    requires init != [] ==> WindowsKept(ttl, init, SeenAfter(ttl, init), init[|init| - 1].now)
    ensures EntriesMade(ttl, init + [last], Admit(ttl, SeenAfter(ttl, init), last))
    ensures WindowsKept(ttl, init + [last], Admit(ttl, SeenAfter(ttl, init), last), last.now)
  {
    hide EntriesMade, WindowsKept, Admit, Handled;
    var arrivals := init + [last];
    assert arrivals[|init|] == last;
    assert forall k | 0 <= k < |init| :: arrivals[k] == init[k];
    EntriesMadeStep(ttl, init, last);
    if init == [] {
      NothingHandled(ttl, last.now);
    }
    WindowsKeptStep(ttl, init, last, if init == [] then last.now else init[|init| - 1].now);
  }

  /** A message reaches a handler iff its ID was not handled within the last `ttl` seconds: dropped
      duplicates neither reach a handler nor extend the window. */
  lemma HandledIff(ttl: Int64, arrivals: seq<Arrival>, k: nat)
    requires Clocked(ttl, arrivals) && k < |arrivals|
    ensures Handled(ttl, arrivals, k) <==>
            forall j | 0 <= j < k && arrivals[j].id == arrivals[k].id && Handled(ttl, arrivals, j) ::
              arrivals[j].now + ttl <= arrivals[k].now
  {
    var init, now := arrivals[..k], arrivals[k].now;
    SeenAfterHandled(ttl, init);
    var seen := SeenAfter(ttl, init);
    forall j | 0 <= j < k ensures Handled(ttl, init, j) == Handled(ttl, arrivals, j) {
      HandledInPrefix(ttl, arrivals, k, j);
    }
    if !Handled(ttl, arrivals, k) {
      var j: nat :| j < k && Made(ttl, init, seen, j) && init[j].id == arrivals[k].id;
    } else {
      forall j | 0 <= j < k && arrivals[j].id == arrivals[k].id && Handled(ttl, arrivals, j)
        ensures arrivals[j].now + ttl <= now
      {
        assert arrivals[k - 1].now <= now;
        assert arrivals[j].now + ttl > arrivals[k - 1].now ==> Made(ttl, init, seen, j);
      }
    }
  }

  /** The condition on the clock is needed, and exact: an entry stays forever if and only if its clock
      plus the TTL is not a positive int64, being too early or wrapping around to a negative number. */
  lemma ExpiresIffPositive(ttl: Int64, made: Int64, seen: Seen, id: MessageId)
    requires ttl > 0
    ensures !(0 < made + ttl < TWO_63) <==> NeverExpires(seen[id := Expiry(ttl, made)], id)
  {
    var entry := seen[id := Expiry(ttl, made)];
    if 0 < made + ttl < TWO_63 {
      assert !StillSeen(entry, id, 0x7fff_ffff_ffff_ffff);
    }
  }

  ghost predicate NeverExpires(seen: Seen, id: MessageId) {
    forall now: Int64 :: StillSeen(seen, id, now)
  }

  predicate StillSeen(seen: Seen, id: MessageId, now: Int64) {
    id in Pruned(seen, now)
  }

  // ---------------------------------------------------------------------------------------
  // Local single use of inputs

  predicate NoDuplicates<T(==)>(s: seq<T>) {
    forall i, j | 0 <= i < j < |s| :: s[i] != s[j]
  }

  predicate Consumable(consumed: set<Hash>, inputs: seq<Hash>) {
    NoDuplicates(inputs) && forall h <- inputs :: h !in consumed
  }

  function Elements<T(==)>(s: seq<T>): set<T> {
    set x | x in s
  }

  class InputTracker {
    var consumed: set<Hash>

    constructor ()
      ensures consumed == {}
    {
      consumed := {};
    }

    /** All of the batch or none of it. */
    method ConsumeInputs(inputs: seq<Hash>) returns (ok: bool)
      modifies this
      ensures ok <==> Consumable(old(consumed), inputs)
      ensures consumed == if ok then old(consumed) + Elements(inputs) else old(consumed)
    {
      var seenInBatch: set<Hash> := {};
      for i := 0 to |inputs|
        invariant seenInBatch == Elements(inputs[..i])
        invariant NoDuplicates(inputs[..i]) && forall h <- inputs[..i] :: h !in consumed
      {
        if inputs[i] in consumed || inputs[i] in seenInBatch {
          return false;
        }
        seenInBatch := seenInBatch + {inputs[i]};
      }
      assert inputs[..|inputs|] == inputs;
      for i := 0 to |inputs|
        invariant consumed == old(consumed) + Elements(inputs[..i])
      {
        consumed := consumed + {inputs[i]};
      }
      ok := true;
    }
  }
}
