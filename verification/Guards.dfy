/** The two sliding-window guards. Each keeps a pruned structure that must answer as the full history
of past decisions would. */
module Guards {
  import opened Arith
  import opened Types

  // ---------- Rate limits ----------

  /** Entries of a history inside the closed trailing window that ends at `now`. */
  function Recent(history: seq<int>, now: int, window: int): nat
  {
    if history == [] then 0
    else Recent(history[..|history| - 1], now, window) + (if now - history[|history| - 1] <= window then 1 else 0)
  }

  /** Entries inside the closed interval of length `window` that starts at `start`. */
  function Inside(history: seq<int>, start: int, window: int): nat
  {
    if history == [] then 0
    else
      var t := history[|history| - 1];
      Inside(history[..|history| - 1], start, window) + (if start <= t <= start + window then 1 else 0)
  }

  ghost predicate Ascending(s: seq<int>)
  {
    forall i, j :: 0 <= i < j < |s| ==> s[i] <= s[j]
  }

  /** Every acceptance found fewer than `limit` recent ones before it. */
  ghost predicate Throttled(history: seq<int>, window: int, limit: nat)
  {
    forall i :: 0 <= i < |history| ==> Recent(history[..i], history[i], window) < limit
  }

  lemma {:induction false} RecentConcat(a: seq<int>, b: seq<int>, now: int, window: int)
    ensures Recent(a + b, now, window) == Recent(a, now, window) + Recent(b, now, window)
  {
    if b == [] {
      assert a + b == a;
    } else {
      assert (a + b)[..|a + b| - 1] == a + b[..|b| - 1];
      RecentConcat(a, b[..|b| - 1], now, window);
    }
  }

  lemma {:induction false} AllStale(s: seq<int>, now: int, window: int)
    requires forall i :: 0 <= i < |s| ==> now - s[i] > window
    ensures Recent(s, now, window) == 0
  {
    if s != [] {
      AllStale(s[..|s| - 1], now, window);
    }
  }

  lemma {:induction false} AllRecent(s: seq<int>, now: int, window: int)
    requires forall i :: 0 <= i < |s| ==> now - s[i] <= window
    ensures Recent(s, now, window) == |s|
  {
    if s != [] {
      AllRecent(s[..|s| - 1], now, window);
    }
  }

  /** The entries of any window up to time `t` are recent at `t`. */
  lemma {:induction false} InsideIsRecent(s: seq<int>, start: int, window: int, t: int)
    requires start <= t <= start + window
    ensures Inside(s, start, window) <= Recent(s, t, window)
  {
    if s != [] {
      InsideIsRecent(s[..|s| - 1], start, window, t);
    }
  }

  /** Under a fixed limit no window of the given length ever holds more than `limit` acceptances. */
  lemma {:induction false} NoWindowOverLimit(history: seq<int>, window: int, limit: nat, start: int)
    requires Throttled(history, window, limit)
    ensures Inside(history, start, window) <= limit
  {
    if history != [] {
      var n := |history| - 1;
      var before := history[..n];
      assert Throttled(before, window, limit) by {
        assert forall i :: 0 <= i < n ==> before[..i] == history[..i];
      }
      NoWindowOverLimit(before, window, limit, start);
      if start <= history[n] <= start + window {
        InsideIsRecent(before, start, window, history[n]);
      }
    }
  }

  /** A queue is a history without a stale front. */
  ghost predicate Pruned(q: seq<int>, h: seq<int>, clock: int, window: int)
  {
    && |q| <= |h| && q == h[|h| - |q|..] && Ascending(h)
    && (forall i :: 0 <= i < |h| ==> h[i] <= clock)
    && (forall i :: 0 <= i < |h| - |q| ==> clock - h[i] > window)
  }

  lemma PrunedLater(q: seq<int>, h: seq<int>, clock: int, now: int, window: int)
    requires Pruned(q, h, clock, window) && clock <= now
    ensures Pruned(q, h, now, window)
  {
  }

  /** Dropping stale entries from the front keeps a queue pruned. */
  lemma PrunedTail(q: seq<int>, h: seq<int>, now: int, window: int)
    requires Pruned(q, h, now, window) && q != [] && now - q[0] > window
    ensures Pruned(q[1..], h, now, window)
  {
    assert q[1..] == h[|h| - |q| + 1..];
  }

  lemma PrunedPush(q: seq<int>, h: seq<int>, now: int, window: int)
    requires Pruned(q, h, now, window)
    ensures Pruned(q + [now], h + [now], now, window)
  {
    assert (h + [now])[|h| - |q|..] == q + [now];
  }

  /** Once its front is recent, the length of the queue is the number of recent acceptances. */
  lemma PrunedCount(q: seq<int>, h: seq<int>, now: int, window: int)
    requires Pruned(q, h, now, window) && (q != [] ==> now - q[0] <= window)
    ensures Recent(h, now, window) == |q|
  {
    var dropped := h[..|h| - |q|];
    assert h == dropped + q;
    RecentConcat(dropped, q, now, window);
    AllStale(dropped, now, window);
    forall i | 0 <= i < |q| ensures now - q[i] <= window {
      assert q[0] == h[|dropped|] && q[i] == h[|dropped| + i];
    }
    AllRecent(q, now, window);
  }

  lemma ThrottledPush(h: seq<int>, now: int, window: int, limit: nat)
    requires Throttled(h, window, limit) && Recent(h, now, window) < limit
    ensures Throttled(h + [now], window, limit)
  {
    assert (h + [now])[..|h|] == h;
    assert forall i :: 0 <= i < |h| ==> (h + [now])[..i] == h[..i];
  }

  /** One consultation of a rate limit. The key is missing when the caller has no address; the limit is
  the one in force at the time. */
  datatype RateCall<Key> = RateCall(key: Option<Key>, now: int, limit: nat, accepted: bool)

  predicate Unlimited<Key>(c: RateCall<Key>) { c.key.None? || c.limit == 0 }

  /** The acceptances of a key that count: those under a limit. */
  ghost function Acceptances<Key>(calls: seq<RateCall<Key>>, key: Key): seq<int>
  {
    if calls == [] then []
    else
      var c := calls[|calls| - 1];
      Acceptances(calls[..|calls| - 1], key) +
        (if c.accepted && !Unlimited(c) && c.key.value == key then [c.now] else [])
  }

  /** The reference limiter: it keeps every call for ever and counts afresh each time. */
  ghost predicate AnsweredBy<Key>(calls: seq<RateCall<Key>>, c: RateCall<Key>, window: int)
  {
    c.accepted <==> Unlimited(c) || Recent(Acceptances(calls, c.key.value), c.now, window) < c.limit
  }

  ghost predicate AllAnswered<Key>(calls: seq<RateCall<Key>>, window: int)
  {
    forall i :: 0 <= i < |calls| ==> AnsweredBy(calls[..i], calls[i], window)
  }

  lemma AnsweredSnoc<Key>(calls: seq<RateCall<Key>>, c: RateCall<Key>, window: int)
    requires AllAnswered(calls, window) && AnsweredBy(calls, c, window)
    ensures AllAnswered(calls + [c], window)
  {
    hide AnsweredBy;
    var more := calls + [c];
    assert more[..|calls|] == calls;
    forall i | 0 <= i < |more| ensures AnsweredBy(more[..i], more[i], window) {
      assert i < |calls| ==> more[..i] == calls[..i];
    }
  }

  /** The limits a key was checked against never were off and never exceeded `limit`. */
  ghost predicate LimitedBy<Key>(calls: seq<RateCall<Key>>, key: Key, limit: nat)
  {
    forall i :: 0 <= i < |calls| && calls[i].key == Some(key) ==> 0 < calls[i].limit <= limit
  }

  lemma {:induction false} AcceptancesThrottled<Key>(calls: seq<RateCall<Key>>, window: int, key: Key, limit: nat)
    requires AllAnswered(calls, window) && LimitedBy(calls, key, limit)
    ensures Throttled(Acceptances(calls, key), window, limit)
  {
    if calls != [] {
      var n := |calls| - 1;
      var (before, c) := (calls[..n], calls[n]);
      hide Throttled, Recent;
      assert AllAnswered(before, window) by {
        assert forall i :: 0 <= i < n ==> before[..i] == calls[..i];
      }
      AcceptancesThrottled(before, window, key, limit);
      assert AnsweredBy(before, c, window);
      if c.accepted && !Unlimited(c) && c.key.value == key {
        ThrottledPush(Acceptances(before, key), c.now, window, limit);
      } else {
        assert Acceptances(calls, key) == Acceptances(before, key);
      }
    } else {
      assert Acceptances(calls, key) == [];
    }
  }

  /** Whatever calls come in whatever order, while the limits in force stay between one and `limit`, no
  window of the given length ever holds more than `limit` acceptances of a key. */
  lemma NoBurst<Key>(calls: seq<RateCall<Key>>, window: int, key: Key, limit: nat, start: int)
    requires AllAnswered(calls, window) && LimitedBy(calls, key, limit)
    ensures Inside(Acceptances(calls, key), start, window) <= limit
  {
    hide AllAnswered, LimitedBy, Acceptances;
    AcceptancesThrottled(calls, window, key, limit);
    NoWindowOverLimit(Acceptances(calls, key), window, limit, start);
  }

  /** `check_wallet_rate_limit` (per IP, one day) and `check_transfer_rate_limit` (per wallet, one
  minute): the same code over different keys and windows. */
  class RateLimiter<Key(==, !new)> {
    const window: int
    var queues: map<Key, seq<int>>
    /** All calls so far, and the latest clock reading. */
    ghost var calls: seq<RateCall<Key>>
    ghost var clock: int

    function Queue(key: Key): seq<int>
      reads this
    {
      if key in queues then queues[key] else []
    }

    ghost predicate Valid()
      reads this
    {
      && AllAnswered(calls, window)
      && forall key :: Pruned(Queue(key), Acceptances(calls, key), clock, window)
    }

    constructor (window: int, ghost start: int)
      ensures Valid() && this.window == window && calls == [] && clock == start
    {
      this.window := window;
      queues, calls, clock := map[], [], start;
    }

    /** With non-decreasing clock readings every call is answered as the reference limiter answers it:
    accepted without a record when there is no key or no limit, otherwise exactly when fewer than
    `limit` acceptances lie in the closed trailing window. */
    method Check(key: Option<Key>, now: int, limit: nat) returns (ok: bool)
      requires Valid() && (key.Some? && limit > 0 ==> clock <= now)
      modifies this
      ensures Valid()
      ensures calls == old(calls) + [RateCall(key, now, limit, ok)]
      ensures AnsweredBy(old(calls), RateCall(key, now, limit, ok), window)
      ensures clock == if key.Some? && limit > 0 then now else old(clock)
    {
      hide Pruned, Throttled, Recent, AllAnswered;
      ghost var before := calls;
      if key.None? || limit == 0 {
        ghost var c := RateCall(key, now, limit, true);
        AnsweredSnoc(calls, c, window);
        calls := calls + [c];
        assert calls[..|before|] == before;
        forall k ensures Pruned(Queue(k), Acceptances(calls, k), clock, window) {
          assert Pruned(old(Queue(k)), Acceptances(before, k), clock, window);
          assert Acceptances(calls, k) == Acceptances(before, k);
        }
        return true;
      }
      ghost var h := Acceptances(calls, key.value);
      var q := Queue(key.value);
      assert Pruned(q, h, clock, window);
      PrunedLater(q, h, clock, now, window);
      while q != [] && now - q[0] > window
        invariant Pruned(q, h, now, window)
        modifies {}
      {
        PrunedTail(q, h, now, window);
        q := q[1..];
      }
      PrunedCount(q, h, now, window);
      ok := |q| < limit;
      ghost var c := RateCall(key, now, limit, ok);
      AnsweredSnoc(calls, c, window);
      calls, clock := calls + [c], now;
      assert calls[..|before|] == before;
      if ok {
        PrunedPush(q, h, now, window);
        q := q + [now];
      }
      queues := queues[key.value := q];
      forall k ensures Pruned(Queue(k), Acceptances(calls, k), clock, window) {
        if k != key.value {
          assert Pruned(old(Queue(k)), Acceptances(before, k), old(clock), window);
          assert Queue(k) == old(Queue(k)) && Acceptances(calls, k) == Acceptances(before, k);
          PrunedLater(old(Queue(k)), Acceptances(before, k), old(clock), now, window);
        } else {
          assert Queue(k) == q && Acceptances(calls, k) == if ok then h + [now] else h;
        }
      }
    }
  }

  // ---------- Operator replay ----------

  /** One consultation of the replay guard, with the drift in force at the time. */
  datatype Call = Call(signature: string, timestamp: int, now: int, drift: nat, accepted: bool)

  /** A negative drift counts as none. */
  function DriftInForce(drift: int): nat { if drift > 0 then drift else 0 }

  /** Both ends of the window count. */
  predicate Within(now: int, timestamp: int, drift: nat) { timestamp - drift <= now <= timestamp + drift }

  /** The record of call `i` outlives the prunings of all calls up to, but not including, `n`. */
  ghost predicate Remembered(calls: seq<Call>, i: int, n: nat)
    requires n <= |calls|
  {
    && 0 <= i < n && calls[i].accepted
    && forall k :: i < k < n ==> Within(calls[k].now, calls[i].timestamp, calls[k].drift)
  }

  /** Call `j` finds the record of call `i` with its own signature. */
  ghost predicate Blocks(calls: seq<Call>, i: int, j: nat)
    requires j < |calls|
  {
    i < j && Remembered(calls, i, j + 1) && calls[i].signature == calls[j].signature
  }

  ghost predicate AnsweredFromHistory(calls: seq<Call>, j: nat)
    requires j < |calls|
  {
    calls[j].accepted <==> !exists i :: Blocks(calls, i, j)
  }

  /** The reference guard: it keeps every call for ever. A call is accepted exactly when no accepted call
  with the same signature has stayed within drift, reading by reading, ever since. */
  ghost predicate AnsweredExactly(calls: seq<Call>)
  {
    forall j :: 0 <= j < |calls| ==> AnsweredFromHistory(calls, j)
  }

  /** The pruned map holds exactly the remembered signatures. */
  ghost predicate HoldsRemembered(calls: seq<Call>, seen: map<string, int>)
  {
    && (forall i :: 0 <= i < |calls| && Remembered(calls, i, |calls|) ==>
          calls[i].signature in seen && seen[calls[i].signature] == calls[i].timestamp)
    && (forall s :: s in seen ==>
          exists i :: 0 <= i < |calls| && Remembered(calls, i, |calls|)
            && calls[i].signature == s && calls[i].timestamp == seen[s])
  }

  function Retained(seen: map<string, int>, now: int, drift: nat): map<string, int>
  {
    map s | s in seen && AbsInt(now - seen[s]) <= drift :: seen[s]
  }

  lemma RetainedWithin(seen: map<string, int>, now: int, drift: nat)
    ensures forall s :: s in Retained(seen, now, drift) <==> s in seen && Within(now, seen[s], drift)
    ensures forall s :: s in Retained(seen, now, drift) ==> Retained(seen, now, drift)[s] == seen[s]
  {
  }

  lemma RememberedPrefix(calls: seq<Call>, c: Call, i: int, n: nat)
    requires n <= |calls|
    ensures Remembered(calls + [c], i, n) <==> Remembered(calls, i, n)
  {
    hide Within;
    var more := calls + [c];
    assert forall k :: 0 <= k < n ==> more[k] == calls[k];
  }

  lemma RememberedNext(calls: seq<Call>, c: Call, i: int)
    ensures Remembered(calls + [c], i, |calls| + 1) <==>
      || (i == |calls| && c.accepted)
      || (Remembered(calls, i, |calls|) && Within(c.now, calls[i].timestamp, c.drift))
  {
    hide Within;
    var more := calls + [c];
    assert forall k :: 0 <= k < |calls| ==> more[k] == calls[k];
    assert more[|calls|] == c;
  }

  /** One more call: the pruned map answers it as the full history does. */
  lemma BlockedIffHeld(calls: seq<Call>, seen: map<string, int>, c: Call)
    requires HoldsRemembered(calls, seen)
    ensures (exists i :: Blocks(calls + [c], i, |calls|)) <==> c.signature in Retained(seen, c.now, c.drift)
  {
    RetainedWithin(seen, c.now, c.drift);
    hide Within, Remembered, Retained;
    var (more, n) := (calls + [c], |calls|);
    forall i ensures Blocks(more, i, n) <==>
      0 <= i < n && Remembered(calls, i, n) && Within(c.now, calls[i].timestamp, c.drift)
      && calls[i].signature == c.signature
    {
      RememberedNext(calls, c, i);
      RememberedRange(calls, i, n);
    }
    if c.signature in Retained(seen, c.now, c.drift) {
      var i :| 0 <= i < n && Remembered(calls, i, n)
        && calls[i].signature == c.signature && calls[i].timestamp == seen[c.signature];
      assert Blocks(more, i, n);
    }
  }

  lemma RememberedRange(calls: seq<Call>, i: int, n: nat)
    requires n <= |calls|
    ensures Remembered(calls, i, n) ==> 0 <= i < n
  {
  }

  lemma HoldsNext(calls: seq<Call>, seen: map<string, int>, c: Call)
    requires HoldsRemembered(calls, seen) && c.accepted == (c.signature !in Retained(seen, c.now, c.drift))
    ensures var kept := Retained(seen, c.now, c.drift);
      HoldsRemembered(calls + [c], if c.accepted then kept[c.signature := c.timestamp] else kept)
  {
    RetainedWithin(seen, c.now, c.drift);
    hide Within, Remembered, Retained;
    var (more, n, kept) := (calls + [c], |calls|, Retained(seen, c.now, c.drift));
    var seen' := if c.accepted then kept[c.signature := c.timestamp] else kept;
    forall i | 0 <= i <= n && Remembered(more, i, n + 1)
      ensures more[i].signature in seen' && seen'[more[i].signature] == more[i].timestamp
    {
      RememberedNext(calls, c, i);
      RememberedRange(more, i, n + 1);
      RememberedRange(calls, i, n);
    }
    forall s | s in seen'
      ensures exists i ::
        0 <= i <= n && Remembered(more, i, n + 1) && more[i].signature == s && more[i].timestamp == seen'[s]
    {
      if c.accepted && s == c.signature {
        RememberedNext(calls, c, n);
        assert Remembered(more, n, n + 1) && more[n] == c;
      } else {
        var i :| 0 <= i < n && Remembered(calls, i, n) && calls[i].signature == s && calls[i].timestamp == seen[s];
        RememberedNext(calls, c, i);
        RememberedRange(calls, i, n);
        assert more[i] == calls[i];
      }
    }
  }

  lemma BlocksPrefix(calls: seq<Call>, c: Call, j: nat)
    requires j < |calls|
    ensures AnsweredFromHistory(calls + [c], j) <==> AnsweredFromHistory(calls, j)
  {
    hide Remembered;
    var more := calls + [c];
    forall i ensures Blocks(more, i, j) <==> Blocks(calls, i, j) {
      RememberedPrefix(calls, c, i, j + 1);
      RememberedRange(calls, i, j + 1);
    }
    assert more[j] == calls[j];
  }

  lemma AnsweredNext(calls: seq<Call>, seen: map<string, int>, c: Call)
    requires AnsweredExactly(calls) && HoldsRemembered(calls, seen)
    requires c.accepted == (c.signature !in Retained(seen, c.now, c.drift))
    ensures AnsweredExactly(calls + [c])
  {
    hide Blocks, HoldsRemembered, Retained;
    var more := calls + [c];
    forall j | 0 <= j < |more| ensures AnsweredFromHistory(more, j) {
      if j < |calls| {
        BlocksPrefix(calls, c, j);
      } else {
        BlockedIffHeld(calls, seen, c);
      }
    }
  }

  // ---------- What exact answers mean ----------

  ghost predicate Ordered(calls: seq<Call>)
  {
    forall i, j :: 0 <= i < j < |calls| ==> calls[i].now <= calls[j].now
  }

  /** No signature is accepted twice at readings both within `drift` of its recorded timestamp. */
  ghost predicate NoReplay(calls: seq<Call>, drift: nat)
  {
    forall i, j ::
      (0 <= i < j < |calls| && calls[i].accepted && Within(calls[i].now, calls[i].timestamp, drift)
       && calls[j].accepted && calls[i].signature == calls[j].signature)
      ==> !Within(calls[j].now, calls[i].timestamp, drift)
  }

  ghost predicate AcceptedBefore(calls: seq<Call>, j: int, signature: string)
  {
    exists i :: 0 <= i < j && i < |calls| && calls[i].accepted && calls[i].signature == signature
  }

  /** Every rejection follows an acceptance of the same signature. */
  ghost predicate RejectionsJustified(calls: seq<Call>)
  {
    forall j :: 0 <= j < |calls| && !calls[j].accepted ==> AcceptedBefore(calls, j, calls[j].signature)
  }

  /** With non-decreasing readings, whatever calls come in between: while the drift in force is never
  below `drift`, no signature passes twice within `drift` of its timestamp; and at any rate none is
  rejected that has not passed before. */
  lemma NoSignatureTwice(calls: seq<Call>, drift: nat)
    requires AnsweredExactly(calls) && Ordered(calls)
    requires forall k :: 0 <= k < |calls| ==> calls[k].drift >= drift
    ensures NoReplay(calls, drift) && RejectionsJustified(calls)
  {
    forall i, j | 0 <= i < j < |calls| && calls[i].accepted && Within(calls[i].now, calls[i].timestamp, drift)
        && calls[j].accepted && calls[i].signature == calls[j].signature
      ensures !Within(calls[j].now, calls[i].timestamp, drift)
    {
      assert AnsweredFromHistory(calls, j);
      if Within(calls[j].now, calls[i].timestamp, drift) {
        assert Blocks(calls, i, j);
      }
    }
    forall j | 0 <= j < |calls| && !calls[j].accepted ensures AcceptedBefore(calls, j, calls[j].signature) {
      assert AnsweredFromHistory(calls, j);
      var i :| Blocks(calls, i, j);
    }
  }

  /** The readings stay in order and the drift in force is `drift` throughout. */
  ghost predicate Steady(calls: seq<Call>, drift: nat)
  {
    Ordered(calls) && forall k :: 0 <= k < |calls| ==> calls[k].drift == drift
  }

  /** A record is found exactly by a call that the first and the last reading since keep within drift. */
  lemma BlocksExactly(calls: seq<Call>, drift: nat, i: nat, j: nat)
    requires Steady(calls, drift) && i < j < |calls|
    ensures Blocks(calls, i, j) <==>
      && calls[i].accepted && calls[i].signature == calls[j].signature
      && Within(calls[i + 1].now, calls[i].timestamp, drift) && Within(calls[j].now, calls[i].timestamp, drift)
  {
    forall k | i < k <= j ensures calls[i + 1].now <= calls[k].now <= calls[j].now {
    }
  }

  /** An accepted call is the only one that its next repetition can find. */
  lemma OnlyLatestBlocks(calls: seq<Call>, h: int, i: nat, j: nat)
    requires AnsweredExactly(calls) && i < j < |calls| && calls[i].accepted && calls[i].signature == calls[j].signature
    requires forall k :: i < k < j ==> calls[k].signature != calls[i].signature
    requires Blocks(calls, h, j)
    ensures h == i
  {
    if h < i {
      assert AnsweredFromHistory(calls, i);
      assert Blocks(calls, h, i);
    }
  }

  /** The next call with the signature of an accepted one is rejected exactly when the first reading since
  and its own lie within drift of the recorded timestamp, which nothing ties to the clock. */
  lemma RepeatExactly(calls: seq<Call>, drift: nat, i: nat, j: nat)
    requires AnsweredExactly(calls) && Steady(calls, drift) && i < j < |calls|
    requires calls[i].accepted && calls[i].signature == calls[j].signature
    requires forall k :: i < k < j ==> calls[k].signature != calls[i].signature
    ensures calls[j].accepted <==>
      !(Within(calls[i + 1].now, calls[i].timestamp, drift) && Within(calls[j].now, calls[i].timestamp, drift))
  {
    hide Within, Remembered;
    assert AnsweredFromHistory(calls, j);
    BlocksExactly(calls, drift, i, j);
    if h :| Blocks(calls, h, j) {
      OnlyLatestBlocks(calls, h, i, j);
    }
  }

  /** Such a timestamp: the same signed request passes twice in a row, because the timestamp it records is
  already out of drift when it is recorded. */
  lemma StaleTimestampRepeats()
    ensures var calls := [Call("a", 0, 100, 10, true), Call("a", 0, 100, 10, true)];
      AnsweredExactly(calls) && Steady(calls, 10)
  {
    var calls := [Call("a", 0, 100, 10, true), Call("a", 0, 100, 10, true)];
    assert !Within(calls[1].now, calls[0].timestamp, calls[1].drift);
  }

  /** A drift that was lowered in between lets a signature pass twice: the small drift prunes what the
  large one still needs. */
  lemma LoweredDriftForgets()
    ensures var calls := [Call("a", 0, 0, 10, true), Call("b", 5, 5, 1, true), Call("a", 0, 6, 10, true)];
      AnsweredExactly(calls) && Ordered(calls) && !NoReplay(calls, 10)
  {
    var calls := [Call("a", 0, 0, 10, true), Call("b", 5, 5, 1, true), Call("a", 0, 6, 10, true)];
    assert calls[1].signature == "b" && calls[0].signature == "a" && "a"[0] != "b"[0];
    assert !Within(calls[1].now, calls[0].timestamp, calls[1].drift);
    assert Within(calls[2].now, calls[0].timestamp, 10);
  }

  /** `guard_operator_replay`: the operator signatures accepted recently. */
  class ReplayGuard {
    var seen: map<string, int>
    /** All calls so far. */
    ghost var calls: seq<Call>

    ghost predicate Valid()
      reads this
    {
      AnsweredExactly(calls) && HoldsRemembered(calls, seen)
    }

    constructor ()
      ensures Valid() && calls == [] && seen == map[]
    {
      seen, calls := map[], [];
    }

    /** Whatever the readings and the drift in force, every call is answered as the full history of
    calls answers it. */
    method Admit(signature: string, timestamp: int, now: int, drift: int) returns (ok: bool)
      requires Valid()
      modifies this
      ensures Valid()
      ensures calls == old(calls) + [Call(signature, timestamp, now, if drift > 0 then drift else 0, ok)]
    {
      hide AnsweredExactly, HoldsRemembered, Retained;
      var d := DriftInForce(drift);
      var kept := Retained(seen, now, d);
      ok := signature !in kept;
      ghost var c := Call(signature, timestamp, now, d, ok);
      AnsweredNext(calls, seen, c);
      HoldsNext(calls, seen, c);
      calls := calls + [c];
      seen := if ok then kept[signature := timestamp] else kept;
    }
  }
}
