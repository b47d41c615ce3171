/** The filter and the rebuild lock as Redis keeps them, and what each call makes of them. */
module FilterStore {
  import opened Common

  type Email = string

  type Token = string

  /**
    The filter key (`created`, and the items inserted so far) and the ready marker. Only insertions
    are recorded: a lookup of anything else may still hit, because the filter is probabilistic.
   */
  datatype Filter = Filter(created: bool, items: set<Email>, marker: Option<string>)

  const EMPTY_FILTER := Filter(false, {}, None)

  /** The lock key: whose it is, and the second it expires. */
  datatype Lease = Lease(owner: Token, expiry: int)

  /** What `remember` achieved: the insert, else the withdrawal of the marker, else neither. */
  datatype Write = Added | Withdrawn | Untouched

  function AfterDrop(f: Filter): Filter { EMPTY_FILTER }

  function AfterReserve(f: Filter): Filter { f.(created := true) }

  function AfterAdd(f: Filter, xs: set<Email>): Filter {
    if xs == {} then f else f.(created := true, items := f.items + xs)
  }

  function AfterMarkReady(f: Filter, fingerprint: string): Filter { f.(marker := Some(fingerprint)) }

  function AfterMarkUnready(f: Filter): Filter { f.(marker := None) }

  function AfterRemember(f: Filter, email: Email, w: Write): Filter {
    match w
    case Added => AfterAdd(f, {email})
    case Withdrawn => AfterMarkUnready(f)
    case Untouched => f
  }

  predicate Free(lock: Option<Lease>, now: int) {
    lock.None? || lock.value.expiry <= now
  }

  /** Compare-and-delete: the key goes only if it is live and still holds this token. */
  function AfterRelease(lock: Option<Lease>, token: Token, now: int): Option<Lease> {
    if !Free(lock, now) && lock.value.owner == token then None else lock
  }

  /** A lookup can report a miss: the marker carries the caller's parameters and no entry exists. */
  predicate MayMiss(f: Filter, email: Email, fingerprint: string) {
    f.marker == Some(fingerprint) && email !in f.items
  }
}
