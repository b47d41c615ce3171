/** The fixed-window counter, on a clock of milliseconds, and what it admits over any timeline. */
module RateLimiter {
  import opened Common

  /** The counter key. A key without expiry would never go away. */
  datatype Counter = Counter(hits: nat, expiry: Option<int>)

  predicate Live(c: Option<Counter>, now: int) {
    c.Some? && (c.value.expiry.None? || now < c.value.expiry.value)
  }

  /** The script: INCR, and EXPIRE if that created the counter. */
  function AfterHit(c: Option<Counter>, now: int, window: nat): Counter {
    var counted := if Live(c, now) then c.value.(hits := c.value.hits + 1) else Counter(1, None);
    if counted.hits == 1 then counted.(expiry := Some(now + window)) else counted
  }

  class RedisRateLimiter {
    var counters: map<string, Counter>

    constructor ()
      ensures counters == map[]
    {
      counters := map[];
    }

    function CounterOf(key: string): Option<Counter>
      reads this
    {
      if key in counters then Some(counters[key]) else None
    }

    /** Records a request against its key alone; a denied one is recorded too. */
    method Hit(key: string, limit: nat, window: nat, now: int) returns (admitted: bool)
      modifies this
      ensures CounterOf(key) == Some(AfterHit(old(CounterOf(key)), now, window))
      ensures admitted <==> AfterHit(old(CounterOf(key)), now, window).hits <= limit
      ensures forall other | other != key :: CounterOf(other) == old(CounterOf(other))
    {
      var hits := 1;
      var expiry := None;
      if key in counters && (counters[key].expiry.None? || now < counters[key].expiry.value) {
        hits, expiry := counters[key].hits + 1, counters[key].expiry;
      }
      if hits == 1 {
        expiry := Some(now + window);
      }
      counters := counters[key := Counter(hits, expiry)];
      admitted := hits <= limit;
    }
  }

  // ---------------------------------------------------------------- one key over a timeline

  predicate Ordered(ts: seq<int>) {
    forall i, j | 0 <= i < j < |ts| :: ts[i] <= ts[j]
  }

  /** The counter after all hits of the timeline. */
  function After(ts: seq<int>, window: nat): Option<Counter> {
    if ts == [] then None
    else Some(AfterHit(After(ts[..|ts| - 1], window), ts[|ts| - 1], window))
  }

  /** The last hit of the timeline is admitted. */
  predicate LastAdmitted(ts: seq<int>, limit: nat, window: nat)
    requires ts != []
  {
    After(ts, window).value.hits <= limit
  }

  /** How many hits in [from, from + length) are admitted. */
  function Admitted(ts: seq<int>, limit: nat, window: nat, from: int, length: nat): nat {
    if ts == [] then 0
    else
      Admitted(ts[..|ts| - 1], limit, window, from, length) +
      if from <= ts[|ts| - 1] < from + length && LastAdmitted(ts, limit, window) then 1 else 0
  }

  /** The counter always has an expiry, no later than a window after its last hit. */
  lemma {:induction false} CounterAlwaysExpires(ts: seq<int>, window: nat)
    requires Ordered(ts) && ts != [] && 0 < window
    ensures var c := After(ts, window).value;
            c.hits >= 1 && c.expiry.Some? &&
            c.expiry.value - window <= ts[|ts| - 1] < c.expiry.value
  {
    var front := ts[..|ts| - 1];
    if front != [] {
      CounterAlwaysExpires(front, window);
    }
  }

  /** Nobody is blocked for good: after one window of silence the next hit is admitted. */
  lemma SilenceUnblocks(ts: seq<int>, t: int, limit: nat, window: nat)
    requires Ordered(ts) && 0 < window && 1 <= limit
    requires ts == [] || ts[|ts| - 1] + window <= t
    ensures LastAdmitted(ts + [t], limit, window)
  {
    assert (ts + [t])[..|ts|] == ts;
    if ts != [] {
      CounterAlwaysExpires(ts, window);
    }
  }

  /** Denied hits do not prolong the block: a hit at the expiry, whatever came before, is admitted. */
  lemma ExpiryUnblocks(ts: seq<int>, denied: seq<int>, t: int, limit: nat, window: nat)
    requires ts != [] && Ordered(ts + denied) && 0 < window && 1 <= limit
    requires After(ts, window).value.expiry.Some? && After(ts, window).value.expiry.value <= t
    requires forall i | 0 <= i < |denied| :: denied[i] < After(ts, window).value.expiry.value
    ensures After(ts + denied, window).value.expiry == After(ts, window).value.expiry
    ensures LastAdmitted(ts + denied + [t], limit, window)
  {
    HitsInWindow(ts, denied, window);
    assert (ts + denied + [t])[..|ts + denied|] == ts + denied;
  }

  lemma {:induction false} HitsInWindow(ts: seq<int>, more: seq<int>, window: nat)
    requires ts != [] && Ordered(ts + more) && 0 < window && After(ts, window).value.expiry.Some?
    requires forall i | 0 <= i < |more| :: more[i] < After(ts, window).value.expiry.value
    ensures After(ts + more, window).value.expiry == After(ts, window).value.expiry
    decreases |more|
  {
    if more == [] {
      assert ts + more == ts;
    } else {
      var front := more[..|more| - 1];
      assert (ts + more)[..|ts + more| - 1] == ts + front;
      HitsInWindow(ts, front, window);
      CounterAlwaysExpires(ts + front, window);
    }
  }

  // ---------------------------------------------------------------- how much a window's length admits

  function Min(a: nat, b: nat): nat { if a < b then a else b }

  /**
    Counting by where the current window, which opened at `start`, stands to the interval: one that
    opened before it has spent its opening hit outside, and one that opened inside it can be
    preceded by at most one such window.
   */
  predicate CountedSoFar(count: nat, hits: nat, start: int, last: int, limit: nat, from: int, window: nat) {
    && (last < from ==> count == 0)
    && (start < from ==> count <= Min(hits, limit) - 1)
    && (from <= start < from + window ==> count <= limit - 1 + Min(hits, limit))
    && count <= 2 * limit - 1
  }

  lemma {:induction false} CountWindows(ts: seq<int>, limit: nat, window: nat, from: int)
    requires Ordered(ts) && ts != [] && 0 < window && 1 <= limit
    ensures var c := After(ts, window).value;
            c.expiry.Some? &&
            CountedSoFar(Admitted(ts, limit, window, from, window), c.hits, c.expiry.value - window,
                         ts[|ts| - 1], limit, from, window)
  {
    CounterAlwaysExpires(ts, window);
    var front := ts[..|ts| - 1];
    if front != [] {
      CounterAlwaysExpires(front, window);
      CountWindows(front, limit, window, from);
    }
  }

  /**
    No interval as long as a window admits more than twice the limit less one; a limit of nought
    admits nothing.
   */
  lemma AdmitsAtMost(ts: seq<int>, limit: nat, window: nat, from: int)
    requires Ordered(ts) && 0 < window
    ensures Admitted(ts, limit, window, from, window) <= if limit == 0 then 0 else 2 * limit - 1
  {
    if limit == 0 {
      ZeroAdmitsNothing(ts, window, from);
    } else if ts != [] {
      CountWindows(ts, limit, window, from);
    }
  }

  lemma {:induction false} ZeroAdmitsNothing(ts: seq<int>, window: nat, from: int)
    requires Ordered(ts) && 0 < window
    ensures Admitted(ts, 0, window, from, window) == 0
  {
    if ts != [] {
      CounterAlwaysExpires(ts, window);
      ZeroAdmitsNothing(ts[..|ts| - 1], window, from);
    }
  }

  /** One window, from the hit that opened it to its expiry, admits at most the limit. */
  lemma {:induction false} WindowAdmitsAtMost(ts: seq<int>, more: seq<int>, limit: nat, window: nat)
    requires ts != [] && Ordered(ts + more) && 0 < window
    requires After(ts, window).value.hits == 1 && After(ts, window).value.expiry.Some?
    requires forall i | 0 <= i < |more| :: more[i] < After(ts, window).value.expiry.value
    ensures After(ts + more, window).value.hits == 1 + |more|
    ensures Admitted(ts + more, limit, window, ts[|ts| - 1], window) == Min(1 + |more|, limit)
    decreases |more|
  {
    if more == [] {
      assert ts + more == ts;
      var before := ts[..|ts| - 1];
      if before != [] {
        CounterAlwaysExpires(before, window);
      }
      NoneBefore(before, limit, window, ts[|ts| - 1]);
    } else {
      var front := more[..|more| - 1];
      assert (ts + more)[..|ts + more| - 1] == ts + front;
      WindowAdmitsAtMost(ts, front, limit, window);
      HitsInWindow(ts, front, window);
      assert After(ts, window).value.expiry == Some(ts[|ts| - 1] + window);
      assert (ts + more)[|ts| - 1] <= (ts + more)[|ts + more| - 1];
    }
  }

  lemma {:induction false} NoneBefore(ts: seq<int>, limit: nat, window: nat, from: int)
    requires Ordered(ts) && (ts != [] ==> ts[|ts| - 1] < from)
    ensures Admitted(ts, limit, window, from, window) == 0
  {
    if ts != [] {
      NoneBefore(ts[..|ts| - 1], limit, window, from);
    }
  }

  // ---------------------------------------------------------------- the bound is reached

  /** One hit opens a window, the rest of the limit follow at its end, and as many open the next. */
  function Burst(limit: nat, window: nat, n: nat): seq<int>
    requires 2 <= window && n <= 2 * limit
  {
    seq(n, i => if i == 0 then 0 else if i < limit then window - 1 else window)
  }

  lemma {:induction false} BurstCount(limit: nat, window: nat, n: nat)
    requires 1 <= limit && 2 <= window && 1 <= n <= 2 * limit
    ensures var ts := Burst(limit, window, n);
            && After(ts, window) == Some(if n <= limit then Counter(n, Some(window))
                                         else Counter(n - limit, Some(2 * window)))
            && Admitted(ts, limit, window, 1, window) == n - 1
    decreases n
  {
    var ts := Burst(limit, window, n);
    assert ts[..n - 1] == Burst(limit, window, n - 1);
    if n > 1 {
      BurstCount(limit, window, n - 1);
    } else {
      assert ts[..0] == [];
    }
  }

  /** The bound is exact: for every limit some timeline reaches it. */
  lemma BoundIsReached(limit: nat, window: nat)
    requires 1 <= limit && 2 <= window
    ensures Ordered(Burst(limit, window, 2 * limit))
    ensures Admitted(Burst(limit, window, 2 * limit), limit, window, 1, window) == 2 * limit - 1
  {
    BurstCount(limit, window, 2 * limit);
  }
}
