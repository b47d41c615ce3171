/**
  The filter's objects: the Redis wrapper, the hint that never raises, and the rebuild at startup.
  Each method makes one Redis call or composes such calls; `up` parameters say whether Redis accepts
  a call. The interleaving of these calls between clients is the subject of FilterProtocol.
 */
module EmailFilters {
  import opened Common
  import opened FilterStore

  datatype RedisError = RedisError

  class RedisCuckooFilter {
    const fingerprint: string
    var created: bool
    var items: set<Email>
    var marker: Option<string>

    constructor (fingerprint: string)
      ensures this.fingerprint == fingerprint && Contents() == EMPTY_FILTER
    {
      this.fingerprint := fingerprint;
      created, items, marker := false, {}, None;
    }

    function Contents(): Filter
      reads this
    {
      Filter(created, items, marker)
    }

    method Reserve(up: bool) returns (r: Result<bool, RedisError>)
      modifies this
      ensures r == if up then Ok(!old(created)) else Err(RedisError)
      ensures Contents() == if up then AfterReserve(old(Contents())) else old(Contents())
    {
      if !up {
        return Err(RedisError);
      }
      r := Ok(!created);
      created := true;
    }

    /** The number of items inserted; an empty batch makes no call. */
    method AddMany(batch: seq<Email>, up: bool) returns (r: Result<nat, RedisError>)
      modifies this
      ensures r == if batch == [] then Ok(0) else if up then Ok(|batch|) else Err(RedisError)
      ensures Contents() ==
              if r.Ok? then AfterAdd(old(Contents()), set x | x in batch) else old(Contents())
    {
      if batch == [] {
        assert (set x | x in batch) == {};
        return Ok(0);
      }
      if !up {
        return Err(RedisError);
      }
      var added := set x | x in batch;
      assert batch[0] in added;
      items := items + added;
      created := true;
      r := Ok(|batch|);
    }

    /** `collides`: whether the filter answers yes for an item it was never given. */
    method ContainsIfReady(item: Email, up: bool, collides: bool)
      returns (r: Result<Option<bool>, RedisError>)
      ensures r.Err? <==> !up
      ensures r == Ok(None) <==> up && marker != Some(fingerprint)
      ensures r == Ok(Some(false)) <==> up && MayMiss(Contents(), item, fingerprint) && !collides
    {
      if !up {
        return Err(RedisError);
      }
      if marker != Some(fingerprint) {
        return Ok(None);
      }
      r := Ok(Some(item in items || collides));
    }

    method MarkReady(up: bool) returns (ok: bool)
      modifies this
      ensures ok == up
      ensures Contents() ==
              if up then AfterMarkReady(old(Contents()), fingerprint) else old(Contents())
    {
      if up {
        marker := Some(fingerprint);
      }
      ok := up;
    }

    method MarkUnready(up: bool) returns (ok: bool)
      modifies this
      ensures ok == up
      ensures Contents() == if up then AfterMarkUnready(old(Contents())) else old(Contents())
    {
      if up {
        marker := None;
      }
      ok := up;
    }

    method Drop(up: bool) returns (ok: bool)
      modifies this
      ensures ok == up
      ensures Contents() == if up then AfterDrop(old(Contents())) else old(Contents())
    {
      if up {
        created, items, marker := false, {}, None;
      }
      ok := up;
    }
  }

  /** What a `remember` comes to, by which of its two calls Redis accepts. */
  function WriteOf(enabled: bool, addUp: bool, withdrawUp: bool): Write {
    if !enabled then Untouched else if addUp then Added else if withdrawUp then Withdrawn else Untouched
  }

  /** Membership hint for registered addresses; it answers for every state of Redis. */
  class EmailFilter {
    const enabled: bool
    const filter: RedisCuckooFilter

    constructor (enabled: bool, filter: RedisCuckooFilter)
      ensures this.enabled == enabled && this.filter == filter
    {
      this.enabled, this.filter := enabled, filter;
    }

    method MightExist(email: Email, up: bool, collides: bool) returns (hint: bool)
      ensures !hint <==> enabled && up && !collides && MayMiss(filter.Contents(), email, filter.fingerprint)
    {
      if !enabled {
        return true;
      }
      var answer := filter.ContainsIfReady(email, up, collides);
      match answer
      case Ok(Some(hit)) => hint := hit;
      case Ok(None) => hint := true;
      case Err(_) => hint := true;
    }

    /** If Redis takes either write, nobody can miss this address; no other miss becomes possible. */
    method Remember(email: Email, addUp: bool, withdrawUp: bool)
      modifies filter
      ensures filter.Contents() ==
              AfterRemember(old(filter.Contents()), email, WriteOf(enabled, addUp, withdrawUp))
      ensures filter.items == old(filter.items) + if enabled && addUp then {email} else {}
      ensures filter.marker == if enabled && !addUp && withdrawUp then None else old(filter.marker)
      ensures enabled && (addUp || withdrawUp) ==>
                forall fp :: !MayMiss(filter.Contents(), email, fp)
      ensures forall other, fp ::
                MayMiss(filter.Contents(), other, fp) ==> MayMiss(old(filter.Contents()), other, fp)
    {
      if !enabled {
        return;
      }
      var added := filter.AddMany([email], addUp);
      assert (set x | x in [email]) == {email};
      if added.Err? {
        WithdrawTrust(withdrawUp);
      }
    }

    method WithdrawTrust(up: bool)
      modifies filter
      ensures filter.Contents() ==
              if up then AfterMarkUnready(old(filter.Contents())) else old(filter.Contents())
    {
      var _ := filter.MarkUnready(up);
    }
  }

  /** The lock key. */
  class RebuildLock {
    var held: Option<Lease>

    constructor ()
      ensures held == None
    {
      held := None;
    }

    /** SET NX EX. */
    method Acquire(token: Token, now: int, seconds: nat) returns (ok: bool)
      modifies this
      ensures ok == Free(old(held), now)
      ensures held == if ok then Some(Lease(token, now + seconds)) else old(held)
    {
      ok := held.None? || held.value.expiry <= now;
      if ok {
        held := Some(Lease(token, now + seconds));
      }
    }

    /** The release script: GET, compare, DEL. */
    method Release(token: Token, now: int)
      modifies this
      ensures held == AfterRelease(old(held), token, now)
      ensures !Free(old(held), now) && old(held).value.owner != token ==> held == old(held)
    {
      if held.Some? && now < held.value.expiry && held.value.owner == token {
        held := None;
      }
    }
  }

  /** Every address of the batches. */
  function Addresses(batches: seq<seq<Email>>): set<Email> {
    set i, j | 0 <= i < |batches| && 0 <= j < |batches[i]| :: batches[i][j]
  }

  lemma AddressesNext(batches: seq<seq<Email>>, i: nat)
    requires i < |batches|
    ensures Addresses(batches[..i + 1]) == Addresses(batches[..i]) + set x | x in batches[i]
  {
    var head := batches[..i];
    var next := batches[..i + 1];
    forall x | x in Addresses(next) ensures x in Addresses(head) + set x | x in batches[i] {
      var k, j :| 0 <= k < |next| && 0 <= j < |next[k]| && next[k][j] == x;
      if k < i {
        assert head[k][j] == x;
      }
    }
    forall x | x in Addresses(head) ensures x in Addresses(next) {
      var k, j :| 0 <= k < |head| && 0 <= j < |head[k]| && head[k][j] == x;
      assert next[k][j] == x;
    }
    forall x | x in batches[i] ensures x in Addresses(next) {
      var j :| 0 <= j < |batches[i]| && batches[i][j] == x;
      assert next[i][j] == x;
    }
  }

  datatype Interruption = Raised | Cancelled

  datatype Outcome = Skipped | Finished(total: nat) | Interrupted

  class EmailFilterWarmer {
    const enabled: bool
    const filter: RedisCuckooFilter
    const lock: RebuildLock
    const lockSeconds: nat

    constructor (enabled: bool, filter: RedisCuckooFilter, lock: RebuildLock, lockSeconds: nat)
      ensures this.enabled == enabled && this.filter == filter && this.lock == lock
      ensures this.lockSeconds == lockSeconds
    {
      this.enabled, this.filter, this.lock, this.lockSeconds := enabled, filter, lock, lockSeconds;
    }

    /**
      The rebuild, with `budget` filter calls going through before it is interrupted, by the next call
      or by the scan of the users table. An uninterrupted rebuild publishes exactly the snapshot; one
      interrupted after its drop leaves no marker.
     */
    method Rebuild(batches: seq<seq<Email>>, budget: nat) returns (end: Outcome)
      requires forall b | b in batches :: b != []
      modifies filter
      ensures end.Finished? <==> budget >= |batches| + 3
      ensures end.Finished? || end.Interrupted?
      ensures end.Finished? ==>
                filter.Contents() == Filter(true, Addresses(batches), Some(filter.fingerprint))
      ensures end.Interrupted? ==>
                (budget == 0 && filter.Contents() == old(filter.Contents())) ||
                (filter.marker == None && filter.items <= Addresses(batches))
    {
      var ok := filter.Drop(budget > 0);
      if !ok {
        return Interrupted;
      }
      var reserved := filter.Reserve(budget > 1);
      if reserved.Err? {
        return Interrupted;
      }
      var total: nat := 0;
      for i := 0 to |batches|
        invariant budget >= i + 2
        invariant filter.Contents() == Filter(true, Addresses(batches[..i]), None)
      {
        AddressesNext(batches, i);
        assert batches[i] in batches;
        var added := filter.AddMany(batches[i], budget > i + 2);
        if added.Err? {
          AddressesWithin(batches, i);
          return Interrupted;
        }
        total := total + |batches[i]|;
      }
      assert batches[..|batches|] == batches;
      ok := filter.MarkReady(budget > |batches| + 2);
      if !ok {
        return Interrupted;
      }
      end := Finished(total);
    }

    lemma AddressesWithin(batches: seq<seq<Email>>, i: nat)
      requires i <= |batches|
      ensures Addresses(batches[..i]) <= Addresses(batches)
    {
      forall x | x in Addresses(batches[..i]) ensures x in Addresses(batches) {
        var k, j :| 0 <= k < i && 0 <= j < |batches[..i][k]| && batches[..i][k][j] == x;
        assert batches[k][j] == x;
      }
    }

    /**
      One replica's start-up. The lock is taken before anything is dropped. A finished rebuild keeps
      it until it expires. A rebuild that raised gives it back if the release goes through; one
      cancelled at its time limit does not, because cancellation passes the handler by.
     */
    method Warm(
      token: Token, now: int, acquireUp: bool, batches: seq<seq<Email>>, budget: nat, cause: Interruption,
      releaseUp: bool)
      returns (end: Outcome)
      requires forall b | b in batches :: b != []
      modifies filter, lock
      ensures end.Skipped? <==> !enabled || !acquireUp || !Free(old(lock.held), now)
      ensures end.Skipped? ==>
                lock.held == old(lock.held) && filter.Contents() == old(filter.Contents())
      ensures end.Finished? ==>
                lock.held == Some(Lease(token, now + lockSeconds)) &&
                filter.Contents() == Filter(true, Addresses(batches), Some(filter.fingerprint))
      ensures end.Interrupted? && 0 < lockSeconds ==>
                lock.held == if cause.Raised? && releaseUp then None else Some(Lease(token, now + lockSeconds))
      ensures end.Interrupted? && 0 < lockSeconds ==> (Free(lock.held, now) <==> cause.Raised? && releaseUp)
      ensures end.Interrupted? ==>
                filter.Contents() == old(filter.Contents()) || filter.marker == None
    {
      if !enabled || !acquireUp {
        return Skipped;
      }
      var ok := lock.Acquire(token, now, lockSeconds);
      if !ok {
        return Skipped;
      }
      end := Rebuild(batches, budget);
      if end.Interrupted? && cause.Raised? && releaseUp {
        lock.Release(token, now);
      }
    }
  }
}
