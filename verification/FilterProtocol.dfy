/**
  The email filter, the users table and the rebuild lock, as one transition system.

  Registrations (password sign-up and OAuth first login), conflict repairs and any number of
  rebuilding replicas interleave freely; each event is one call that Redis or PostgreSQL executes
  atomically. Addresses are in canonical form throughout.
 */
module FilterProtocol {
  import opened Common
  import opened FilterStore

  /** Settings shared by the replicas, in seconds. */
  datatype Config = Config(timeout: nat, lockSeconds: nat)

  /** Where a rebuilding replica stands. `Scanned` holds the part of its snapshot not yet added. */
  datatype Phase = Entered | Dropped | Reserved | Scanned(remaining: set<Email>) | Failing | Left

  /** A replica that took the lock; its rebuild is cancelled at `deadline`. */
  datatype Warmer = Warmer(deadline: int, phase: Phase)

  /** An uncommitted users row. `kept`: its filter entry was added and no rebuild dropped it since. */
  datatype Row = Flushed(email: Email) | Recorded(email: Email, kept: bool)

  datatype State = State(
    now: int,
    committed: set<Email>,
    rows: map<nat, Row>,
    filter: Filter,
    lock: Option<Lease>,
    warmers: map<Token, Warmer>)

  datatype Event =
    | Tick(seconds: nat)
    | Flush(row: nat, email: Email)
    | Remember(row: nat, write: Write)
    | Commit(row: nat)
    | Rollback(row: nat)
    | Repair(email: Email, write: Write)
    | Acquire(token: Token, started: int)
    | Drop(token: Token)
    | Reserve(token: Token)
    | Scan(token: Token)
    | AddBatch(token: Token, batch: set<Email>)
    | Publish(token: Token, fingerprint: string)
    | Fail(token: Token)
    | Release(token: Token)
    | Abandon(token: Token)

  const INITIAL := State(0, {}, map[], EMPTY_FILTER, None, map[])

  /** The replica is inside its rebuild and its time limit has not run out. */
  predicate Active(s: State, t: Token) {
    t in s.warmers && s.now < s.warmers[t].deadline &&
    !s.warmers[t].phase.Failing? && !s.warmers[t].phase.Left?
  }

  predicate Enabled(c: Config, s: State, e: Event) {
    match e
    case Tick(_) => true
    case Flush(r, email) =>
      // The unique index admits one row per address, committed or not.
      r !in s.rows && email !in s.committed && forall q | q in s.rows :: s.rows[q].email != email
    case Remember(r, _) => r in s.rows && s.rows[r].Flushed?
    case Commit(r) => r in s.rows && s.rows[r].Recorded?
    case Rollback(r) => r in s.rows
    case Repair(_, _) => true
    case Acquire(t, started) =>
      // The time limit starts to run before the lock is taken. Lock tokens are never drawn twice.
      t !in s.warmers && started <= s.now < started + c.timeout && Free(s.lock, s.now)
    case Drop(t) => Active(s, t) && s.warmers[t].phase.Entered?
    case Reserve(t) => Active(s, t) && s.warmers[t].phase.Dropped?
    case Scan(t) => Active(s, t) && s.warmers[t].phase.Reserved?
    case AddBatch(t, batch) =>
      Active(s, t) && s.warmers[t].phase.Scanned? && batch <= s.warmers[t].phase.remaining
    case Publish(t, _) => Active(s, t) && s.warmers[t].phase == Scanned({})
    case Fail(t) => Active(s, t)
    case Release(t) => t in s.warmers && s.warmers[t].phase.Failing?
    case Abandon(t) => t in s.warmers
  }

  function At(s: State, t: Token, phase: Phase): State
    requires t in s.warmers
  {
    s.(warmers := s.warmers[t := s.warmers[t].(phase := phase)])
  }

  /** Every pending row loses its filter entry. */
  function Unkept(rows: map<nat, Row>): map<nat, Row> {
    map r | r in rows :: if rows[r].Recorded? then rows[r].(kept := false) else rows[r]
  }

  function Step(c: Config, s: State, e: Event): State
    requires Enabled(c, s, e)
  {
    match e
    case Tick(n) => s.(now := s.now + n)
    case Flush(r, email) => s.(rows := s.rows[r := Flushed(email)])
    case Remember(r, w) =>
      s.(rows := s.rows[r := Recorded(s.rows[r].email, w.Added?)],
         filter := AfterRemember(s.filter, s.rows[r].email, w))
    case Commit(r) => s.(committed := s.committed + {s.rows[r].email}, rows := s.rows - {r})
    case Rollback(r) => s.(rows := s.rows - {r})
    case Repair(email, w) => s.(filter := AfterRemember(s.filter, email, w))
    case Acquire(t, started) =>
      s.(lock := Some(Lease(t, s.now + c.lockSeconds)),
         warmers := s.warmers[t := Warmer(started + c.timeout, Entered)])
    case Drop(t) => At(s, t, Dropped).(filter := AfterDrop(s.filter), rows := Unkept(s.rows))
    case Reserve(t) => At(s, t, Reserved).(filter := AfterReserve(s.filter))
    case Scan(t) => At(s, t, Scanned(s.committed))
    case AddBatch(t, batch) =>
      At(s, t, Scanned(s.warmers[t].phase.remaining - batch)).(filter := AfterAdd(s.filter, batch))
    case Publish(t, fp) => At(s, t, Left).(filter := AfterMarkReady(s.filter, fp))
    case Fail(t) => At(s, t, Failing)
    case Release(t) => At(s, t, Left).(lock := AfterRelease(s.lock, t, s.now))
    case Abandon(t) => At(s, t, Left)
  }

  /** `es` is a run from `s`: each event is enabled when its turn comes. */
  predicate Valid(c: Config, s: State, es: seq<Event>)
    decreases |es|
  {
    es == [] || (Enabled(c, s, es[0]) && Valid(c, Step(c, s, es[0]), es[1..]))
  }

  function Exec(c: Config, s: State, es: seq<Event>): State
    requires Valid(c, s, es)
    decreases |es|
  {
    if es == [] then s else Exec(c, Step(c, s, es[0]), es[1..])
  }

  /** A miss is definitive: whoever finds the marker up finds every committed address too. */
  ghost predicate NoFalseMiss(s: State) {
    s.filter.marker.Some? ==> s.committed <= s.filter.items
  }

  ghost predicate AtMostOneRebuild(s: State) {
    forall t, u | Active(s, t) && Active(s, u) :: t == u
  }

  /** The marker is down and no running rebuild has taken its snapshot yet. */
  ghost predicate Untrusted(s: State) {
    s.filter.marker.None? && forall t | Active(s, t) :: !s.warmers[t].phase.Scanned?
  }

  /** What a commit of `email` needs. */
  ghost predicate Covered(s: State, email: Email) {
    email in s.filter.items || Untrusted(s)
  }

  ghost predicate GuardedEvent(s: State, e: Event) {
    e.Commit? && e.row in s.rows ==> Covered(s, s.rows[e.row].email)
  }

  /** Every commit of the run is covered at the moment it happens. */
  ghost predicate Guarded(c: Config, s: State, es: seq<Event>)
    requires Valid(c, s, es)
    decreases |es|
  {
    es == [] || (GuardedEvent(s, es[0]) && Guarded(c, Step(c, s, es[0]), es[1..]))
  }

  // ---------------------------------------------------------------- mutual exclusion

  /** Whoever is inside a rebuild owns the lock until after its time limit. */
  ghost predicate LockInv(s: State) {
    forall t | Active(s, t) ::
      s.lock.Some? && s.lock.value.owner == t && s.warmers[t].deadline <= s.lock.value.expiry
  }

  lemma LockStep(c: Config, s: State, e: Event)
    requires c.timeout <= c.lockSeconds
    requires LockInv(s) && Enabled(c, s, e)
    ensures LockInv(Step(c, s, e))
  {
    var s' := Step(c, s, e);
    forall t | Active(s', t)
      ensures s'.lock.Some? && s'.lock.value.owner == t &&
              s'.warmers[t].deadline <= s'.lock.value.expiry
    {
      if !(e.Acquire? && e.token == t) {
        assert Active(s, t);
      }
    }
  }

  /** In every run no release, expiry or takeover takes the lock from a running rebuild. */
  lemma {:induction false} LockOutlivesRebuild(c: Config, s: State, es: seq<Event>)
    requires c.timeout <= c.lockSeconds
    requires LockInv(s) && Valid(c, s, es)
    ensures LockInv(Exec(c, s, es)) && AtMostOneRebuild(Exec(c, s, es))
    decreases |es|
  {
    if es != [] {
      LockStep(c, s, es[0]);
      LockOutlivesRebuild(c, Step(c, s, es[0]), es[1..]);
    }
  }

  // ---------------------------------------------------------------- completeness

  ghost predicate Inv(s: State) {
    LockInv(s) && NoFalseMiss(s) && RowsInv(s) && RebuildInv(s)
  }

  /** No two rows share an address, and a kept row's address is in the filter. */
  ghost predicate RowsInv(s: State) {
    && (forall r | r in s.rows :: s.rows[r].email !in s.committed)
    && (forall r, q | r in s.rows && q in s.rows && r != q :: s.rows[r].email != s.rows[q].email)
    && (forall r | r in s.rows :: s.rows[r].Recorded? && s.rows[r].kept ==>
          s.rows[r].email in s.filter.items)
  }

  /** From its drop on, a rebuild keeps the marker down; once it scanned, only its rest is missing. */
  ghost predicate RebuildInv(s: State) {
    && (forall t | Active(s, t) && !s.warmers[t].phase.Entered? :: s.filter.marker.None?)
    && (forall t | Active(s, t) && s.warmers[t].phase.Scanned? ::
          && s.warmers[t].phase.remaining <= s.committed
          && s.committed <= s.filter.items + s.warmers[t].phase.remaining)
  }

  lemma RowsStep(c: Config, s: State, e: Event)
    requires RowsInv(s) && Enabled(c, s, e)
    ensures RowsInv(Step(c, s, e))
  {
    RowsStayApart(c, s, e);
    var s' := Step(c, s, e);
    forall r | r in s'.rows && s'.rows[r].Recorded? && s'.rows[r].kept
      ensures s'.rows[r].email in s'.filter.items
    {
      assert r in s.rows;
    }
  }

  lemma RowsStayApart(c: Config, s: State, e: Event)
    requires RowsInv(s) && Enabled(c, s, e)
    ensures var s' := Step(c, s, e);
            && (forall r | r in s'.rows :: s'.rows[r].email !in s'.committed)
            && (forall r, q | r in s'.rows && q in s'.rows && r != q :: s'.rows[r].email != s'.rows[q].email)
  {
    var s' := Step(c, s, e);
    forall r | r in s'.rows
      ensures (r in s.rows && s.rows[r].email == s'.rows[r].email) || e == Flush(r, s'.rows[r].email)
    {}
  }

  lemma RebuildStep(c: Config, s: State, e: Event)
    requires LockInv(s) && NoFalseMiss(s) && RebuildInv(s) && Enabled(c, s, e) && GuardedEvent(s, e)
    ensures RebuildInv(Step(c, s, e))
  {
    var s' := Step(c, s, e);
    forall t | Active(s', t) ensures Active(s, t) || (e.Acquire? && e.token == t) {}
  }

  lemma InvStep(c: Config, s: State, e: Event)
    requires c.timeout <= c.lockSeconds
    requires Inv(s) && Enabled(c, s, e) && GuardedEvent(s, e)
    ensures Inv(Step(c, s, e))
  {
    LockStep(c, s, e);
    RowsStep(c, s, e);
    RebuildStep(c, s, e);
  }

  lemma {:induction false} GuardedRunsKeepInv(c: Config, s: State, es: seq<Event>)
    requires c.timeout <= c.lockSeconds
    requires Inv(s) && Valid(c, s, es) && Guarded(c, s, es)
    ensures Inv(Exec(c, s, es))
    decreases |es|
  {
    if es != [] {
      InvStep(c, s, es[0]);
      GuardedRunsKeepInv(c, Step(c, s, es[0]), es[1..]);
    }
  }

  /** The outcome of the whole design: in a guarded run, a trusted miss proves the address free. */
  lemma MissProvesFree(c: Config, es: seq<Event>, email: Email, fingerprint: string)
    requires c.timeout <= c.lockSeconds
    requires Valid(c, INITIAL, es) && Guarded(c, INITIAL, es)
    requires MayMiss(Exec(c, INITIAL, es).filter, email, fingerprint)
    ensures email !in Exec(c, INITIAL, es).committed
  {
    GuardedRunsKeepInv(c, INITIAL, es);
  }

  /** The run of two replicas whose rebuilds overlap once the first one's lock has expired. */
  function Overlap(c: Config): seq<Event> {
    [Acquire("a", 0), Tick(c.lockSeconds), Acquire("b", c.lockSeconds)]
  }

  lemma OverlapHappens(c: Config)
    requires c.timeout > c.lockSeconds
    ensures Valid(c, INITIAL, Overlap(c)) && !AtMostOneRebuild(Exec(c, INITIAL, Overlap(c)))
  {
    var es := Overlap(c);
    Extend(c, INITIAL, [], es[0]);
    Extend(c, INITIAL, [es[0]], es[1]);
    Extend(c, INITIAL, [es[0], es[1]], es[2]);
    assert es == [es[0], es[1]] + [es[2]];
    var s := Exec(c, INITIAL, es);
    assert Active(s, "a") && Active(s, "b");
  }

  /** Appending an enabled event to a run. */
  lemma {:induction false} Extend(c: Config, s: State, es: seq<Event>, e: Event)
    requires Valid(c, s, es) && Enabled(c, Exec(c, s, es), e)
    ensures Valid(c, s, es + [e]) && Exec(c, s, es + [e]) == Step(c, Exec(c, s, es), e)
    ensures Guarded(c, s, es) && GuardedEvent(Exec(c, s, es), e) ==> Guarded(c, s, es + [e])
    decreases |es|
  {
    if es == [] {
      assert Exec(c, Step(c, s, e), [e][1..]) == Step(c, s, e);
    } else {
      assert (es + [e])[1..] == es[1..] + [e];
      Extend(c, Step(c, s, es[0]), es[1..], e);
    }
  }

  /** The lock keeps rebuilds apart in every run exactly when it outlives the rebuild's time limit. */
  lemma ExclusionIff(c: Config)
    ensures (forall es | Valid(c, INITIAL, es) :: AtMostOneRebuild(Exec(c, INITIAL, es)))
            <==> c.timeout <= c.lockSeconds
  {
    if c.timeout <= c.lockSeconds {
      forall es | Valid(c, INITIAL, es) ensures AtMostOneRebuild(Exec(c, INITIAL, es)) {
        LockOutlivesRebuild(c, INITIAL, es);
      }
    } else {
      OverlapHappens(c);
    }
  }

  /** Overlapping rebuilds lose an address: the first publishes what the second has just dropped. */
  function Loss(c: Config): seq<Event> {
    [Flush(0, "x@y"), Remember(0, Added), Commit(0),
     Acquire("a", 0), Drop("a"), Reserve("a"), Scan("a"), AddBatch("a", {"x@y"}),
     Tick(c.lockSeconds), Acquire("b", c.lockSeconds), Drop("b"), Publish("a", "")]
  }

  lemma LossHappens(c: Config)
    requires c.timeout > c.lockSeconds
    ensures Valid(c, INITIAL, Loss(c)) && Guarded(c, INITIAL, Loss(c))
    ensures !NoFalseMiss(Exec(c, INITIAL, Loss(c)))
  {
    var es := Loss(c);
    for i := 0 to |es|
      invariant Valid(c, INITIAL, es[..i]) && Guarded(c, INITIAL, es[..i])
      invariant Exec(c, INITIAL, es[..i]) == LossState(c, i)
    {
      assert es[..i + 1] == es[..i] + [es[i]];
      LossStep(c, i);
      Extend(c, INITIAL, es[..i], es[i]);
    }
    assert es[..|es|] == es;
  }

  /** The state after the first `i` events of `Loss`. */
  function LossState(c: Config, i: nat): State
    requires i <= 12
  {
    var row := if i == 1 then map[0 := Flushed("x@y")]
               else if i == 2 then map[0 := Recorded("x@y", true)] else map[];
    var filter :=
      if i <= 1 then EMPTY_FILTER
      else if i <= 4 then Filter(true, {"x@y"}, None)
      else if i == 5 then EMPTY_FILTER
      else if i <= 7 then Filter(true, {}, None)
      else if i <= 10 then Filter(true, {"x@y"}, None)
      else if i == 11 then EMPTY_FILTER
      else Filter(false, {}, Some(""));
    var a := if i <= 4 then Entered else if i == 5 then Dropped else if i == 6 then Reserved
             else if i == 7 then Scanned({"x@y"}) else if i <= 11 then Scanned({}) else Left;
    var warmers :=
      if i <= 3 then map[]
      else if i <= 9 then map["a" := Warmer(c.timeout, a)]
      else map["a" := Warmer(c.timeout, a),
               "b" := Warmer(c.lockSeconds + c.timeout, if i == 10 then Entered else Dropped)];
    State(
      if i <= 8 then 0 else c.lockSeconds,
      if i <= 2 then {} else {"x@y"},
      row, filter,
      if i <= 3 then None
      else if i <= 9 then Some(Lease("a", c.lockSeconds))
      else Some(Lease("b", 2 * c.lockSeconds)),
      warmers)
  }

  lemma LossStep(c: Config, i: nat)
    requires c.timeout > c.lockSeconds && i < 12
    ensures Enabled(c, LossState(c, i), Loss(c)[i]) && GuardedEvent(LossState(c, i), Loss(c)[i])
    ensures Step(c, LossState(c, i), Loss(c)[i]) == LossState(c, i + 1)
  {
    if i <= 3 {
      LossRegisters(c, i);
    } else if i <= 7 {
      LossRebuilds(c, i);
    } else {
      LossOverlaps(c, i);
    }
  }

  lemma LossRegisters(c: Config, i: nat)
    requires c.timeout > c.lockSeconds && i <= 3
    ensures Enabled(c, LossState(c, i), Loss(c)[i]) && GuardedEvent(LossState(c, i), Loss(c)[i])
    ensures Step(c, LossState(c, i), Loss(c)[i]) == LossState(c, i + 1)
  {
    assert Step(c, LossState(c, i), Loss(c)[i]).rows == LossState(c, i + 1).rows;
  }

  lemma LossRebuilds(c: Config, i: nat)
    requires c.timeout > c.lockSeconds && 4 <= i <= 7
    ensures Enabled(c, LossState(c, i), Loss(c)[i])
    ensures Step(c, LossState(c, i), Loss(c)[i]) == LossState(c, i + 1)
  {
    var next := Step(c, LossState(c, i), Loss(c)[i]);
    assert next.rows == LossState(c, i + 1).rows;
    assert i == 7 ==> LossState(c, i).warmers["a"].phase.remaining - {"x@y"} == {};
    assert next.warmers == LossState(c, i + 1).warmers;
  }

  lemma LossOverlaps(c: Config, i: nat)
    requires c.timeout > c.lockSeconds && 8 <= i < 12
    ensures Enabled(c, LossState(c, i), Loss(c)[i])
    ensures Step(c, LossState(c, i), Loss(c)[i]) == LossState(c, i + 1)
  {
    var next := Step(c, LossState(c, i), Loss(c)[i]);
    assert next.rows == LossState(c, i + 1).rows;
    assert next.warmers == LossState(c, i + 1).warmers;
  }

  /** Guarded commits never produce a false miss exactly when the lock outlives the time limit. */
  lemma CompletenessIff(c: Config)
    ensures (forall es | Valid(c, INITIAL, es) && Guarded(c, INITIAL, es) ::
               NoFalseMiss(Exec(c, INITIAL, es)))
            <==> c.timeout <= c.lockSeconds
  {
    if c.timeout <= c.lockSeconds {
      forall es | Valid(c, INITIAL, es) && Guarded(c, INITIAL, es)
        ensures NoFalseMiss(Exec(c, INITIAL, es))
      {
        GuardedRunsKeepInv(c, INITIAL, es);
      }
    } else {
      LossHappens(c);
    }
  }

  /** A rebuild that fails gives its lock back, and another replica can start at once. */
  lemma FailedRebuildFreesLock(c: Config, s: State, t: Token, next: Token)
    requires LockInv(s) && Active(s, t) && next !in s.warmers && 0 < c.timeout
    ensures Enabled(c, s, Fail(t)) && Enabled(c, Step(c, s, Fail(t)), Release(t))
    ensures var s' := Step(c, Step(c, s, Fail(t)), Release(t));
            && s'.filter == s.filter && s'.lock.None? && !Active(s', t)
            && Enabled(c, s', Acquire(next, s'.now))
  {}

  /** A registration that is rolled back leaves its address free to register again, in any state of a run. */
  lemma RollbackFreesAddress(c: Config, s: State, r: nat, again: nat)
    requires RowsInv(s) && r in s.rows && again !in s.rows
    ensures Enabled(c, Step(c, s, Rollback(r)), Flush(again, s.rows[r].email))
    ensures Step(c, s, Rollback(r)).committed == s.committed
  {}

  // ---------------------------------------------------------------- the commit guard is exact

  /** An event of the replica's rebuild after its snapshot. */
  predicate RebuildEvent(e: Event, t: Token) {
    (e.AddBatch? || e.Publish?) && e.token == t
  }

  /** The rebuild in progress, left alone, finishes: it adds the rest of its snapshot and publishes. */
  lemma FinishRebuild(c: Config, s: State, t: Token) returns (es: seq<Event>)
    requires Active(s, t) && s.warmers[t].phase.Scanned?
    ensures Valid(c, s, es) && Guarded(c, s, es)
    ensures Exec(c, s, es).filter.marker.Some? && Exec(c, s, es).committed == s.committed
    ensures Exec(c, s, es).filter.items == s.filter.items + s.warmers[t].phase.remaining
    ensures forall e | e in es :: RebuildEvent(e, t)
  {
    es := [AddBatch(t, s.warmers[t].phase.remaining), Publish(t, "")];
    var s1 := Step(c, s, es[0]);
    assert es[1..] == [es[1]] && es[1..][1..] == [];
    assert Active(s1, t) && Enabled(c, s1, es[1]);
    assert Exec(c, s1, es[1..]) == Step(c, s1, es[1]);
  }

  lemma UncoveredCommitFails(c: Config, s: State, r: nat) returns (es: seq<Event>)
    requires Inv(s) && Enabled(c, s, Commit(r)) && !Covered(s, s.rows[r].email)
    ensures Valid(c, Step(c, s, Commit(r)), es) && Guarded(c, Step(c, s, Commit(r)), es)
    ensures !NoFalseMiss(Exec(c, Step(c, s, Commit(r)), es))
    ensures es == [] || exists t :: Active(s, t) && forall e | e in es :: RebuildEvent(e, t)
  {
    var email := s.rows[r].email;
    var s' := Step(c, s, Commit(r));
    assert email in s'.committed;
    if s.filter.marker.Some? {
      es := [];
    } else {
      var t :| Active(s, t) && s.warmers[t].phase.Scanned?;
      assert Active(s', t);
      es := FinishRebuild(c, s', t);
      assert email !in Exec(c, s', es).filter.items;
    }
  }

  /**
    After any guarded run, committing a pending row keeps every guarded continuation free of false
    misses exactly when the commit is covered. An uncovered commit is one that the rebuild in
    progress, or the marker already up, turns into a registered address reported as free.
   */
  lemma CommitGuardIsExact(c: Config, run: seq<Event>, r: nat)
    requires c.timeout <= c.lockSeconds
    requires Valid(c, INITIAL, run) && Guarded(c, INITIAL, run)
    requires Enabled(c, Exec(c, INITIAL, run), Commit(r))
    ensures var s := Exec(c, INITIAL, run);
            var s' := Step(c, s, Commit(r));
            Covered(s, s.rows[r].email) <==>
            forall es | Valid(c, s', es) && Guarded(c, s', es) :: NoFalseMiss(Exec(c, s', es))
  {
    GuardedRunsKeepInv(c, INITIAL, run);
    var s := Exec(c, INITIAL, run);
    var email := s.rows[r].email;
    var s' := Step(c, s, Commit(r));
    if Covered(s, email) {
      InvStep(c, s, Commit(r));
      forall es | Valid(c, s', es) && Guarded(c, s', es) ensures NoFalseMiss(Exec(c, s', es)) {
        GuardedRunsKeepInv(c, s', es);
      }
    } else {
      var es := UncoveredCommitFails(c, s, r);
    }
  }

  // ---------------------------------------------------------------- when commits are covered

  /** No rebuild event of the run takes a snapshot; with `dropped` unset, none after a drop. */
  predicate NoStraddle(es: seq<Event>, dropped: bool)
    decreases |es|
  {
    es == [] ||
    (!(dropped && es[0].Scan?) && NoStraddle(es[1..], dropped || es[0].Drop?))
  }

  lemma UntrustedStep(c: Config, s: State, e: Event)
    requires c.timeout <= c.lockSeconds
    requires LockInv(s) && Enabled(c, s, e)
    requires e.Drop? || (Untrusted(s) && !e.Scan?)
    ensures Untrusted(Step(c, s, e))
  {
    var s' := Step(c, s, e);
    forall t | Active(s', t) ensures !s'.warmers[t].phase.Scanned? {
      assert Active(s, t) || (e.Acquire? && e.token == t);
    }
  }

  /**
    Whatever else happens, a registration is covered until it commits if its entry was added and no
    rebuild both dropped and scanned since, or if its write withdrew the marker outside a scanned
    rebuild and no rebuild scanned since.
   */
  lemma {:induction false} OrderlyCommitsAreCovered(c: Config, s: State, es: seq<Event>, r: nat)
    requires c.timeout <= c.lockSeconds
    requires LockInv(s) && RowsInv(s) && Valid(c, s, es)
    requires r in s.rows && s.rows[r].Recorded?
    requires forall i | 0 <= i < |es| :: es[i] != Rollback(r) && es[i] != Commit(r)
    requires NoStraddle(es, !s.rows[r].kept)
    requires s.rows[r].kept || Untrusted(s)
    ensures r in Exec(c, s, es).rows && Exec(c, s, es).rows[r].email == s.rows[r].email
    ensures Covered(Exec(c, s, es), s.rows[r].email)
    decreases |es|
  {
    if es != [] {
      var s' := Step(c, s, es[0]);
      LockStep(c, s, es[0]);
      RowsStep(c, s, es[0]);
      if es[0].Drop? || (Untrusted(s) && !es[0].Scan?) {
        UntrustedStep(c, s, es[0]);
      }
      assert r in s'.rows && s'.rows[r].Recorded? && s'.rows[r].email == s.rows[r].email;
      StraddleWeakens(es[1..], !s.rows[r].kept || es[0].Drop?, !s'.rows[r].kept);
      OrderlyCommitsAreCovered(c, s', es[1..], r);
    }
  }

  lemma StraddleWeakens(es: seq<Event>, before: bool, after: bool)
    requires NoStraddle(es, before) && (after ==> before)
    ensures NoStraddle(es, after)
    decreases |es|
  {}

  /**
    What the order of events alone tells. `down`: no rebuild scanned since the last drop, or since a
    write withdrew the marker outside a scanned rebuild. `scanned`: the replica that scanned last, if
    it has not ended and no other took the lock. `kept`: the rows whose entry was added, and no
    rebuild dropped the filter since.
   */
  datatype Watch = Watch(down: bool, scanned: Option<Token>, kept: set<nat>)

  const UNSEEN := Watch(true, None, {})

  function Watched(w: Watch, e: Event): Watch {
    match e
    case Remember(r, Added) => w.(kept := w.kept + {r})
    case Remember(_, Withdrawn) => w.(down := w.down || w.scanned.None?)
    case Repair(_, Withdrawn) => w.(down := w.down || w.scanned.None?)
    case Commit(r) => w.(kept := w.kept - {r})
    case Rollback(r) => w.(kept := w.kept - {r})
    case Acquire(_, _) => w.(scanned := None)
    case Drop(_) => Watch(true, None, {})
    case Scan(t) => w.(down := false, scanned := Some(t))
    case Publish(t, _) => Ended(w, t)
    case Fail(t) => Ended(w, t)
    case Abandon(t) => Ended(w, t)
    case _ => w
  }

  function Ended(w: Watch, t: Token): Watch {
    if w.scanned == Some(t) then w.(scanned := None) else w
  }

  /** Each row commits with its entry kept, or while the filter is down. */
  predicate Orderly(w: Watch, es: seq<Event>)
    decreases |es|
  {
    es == [] ||
    ((es[0].Commit? ==> es[0].row in w.kept || w.down) && Orderly(Watched(w, es[0]), es[1..]))
  }

  ghost predicate Tracks(s: State, w: Watch) {
    && (w.down ==> Untrusted(s))
    && (forall r | r in w.kept :: r in s.rows && s.rows[r].Recorded? && s.rows[r].kept)
    && (forall t | Active(s, t) && s.warmers[t].phase.Scanned? :: w.scanned == Some(t))
  }

  lemma StepTracks(c: Config, s: State, e: Event, w: Watch)
    requires c.timeout <= c.lockSeconds
    requires LockInv(s) && Enabled(c, s, e) && Tracks(s, w)
    ensures Tracks(Step(c, s, e), Watched(w, e))
  {
    var s' := Step(c, s, e);
    if e.Drop? || (Untrusted(s) && !e.Scan?) {
      UntrustedStep(c, s, e);
    }
    forall t | Active(s', t) && s'.warmers[t].phase.Scanned? ensures Watched(w, e).scanned == Some(t) {
      assert Active(s, t);
    }
  }

  lemma {:induction false} OrderlyRunsAreGuarded(c: Config, s: State, es: seq<Event>, w: Watch)
    requires c.timeout <= c.lockSeconds
    requires LockInv(s) && RowsInv(s) && Tracks(s, w)
    requires Valid(c, s, es) && Orderly(w, es)
    ensures Guarded(c, s, es)
    decreases |es|
  {
    if es != [] {
      LockStep(c, s, es[0]);
      RowsStep(c, s, es[0]);
      StepTracks(c, s, es[0], w);
      OrderlyRunsAreGuarded(c, Step(c, s, es[0]), es[1..], Watched(w, es[0]));
    }
  }

  /** With rebuilds kept apart, a run that is orderly never has the marker over an incomplete filter. */
  lemma OrderlyRunsMissNothing(c: Config, es: seq<Event>)
    requires c.timeout <= c.lockSeconds
    requires Valid(c, INITIAL, es) && Orderly(UNSEEN, es)
    ensures Guarded(c, INITIAL, es) && NoFalseMiss(Exec(c, INITIAL, es))
  {
    OrderlyRunsAreGuarded(c, INITIAL, es, UNSEEN);
    GuardedRunsKeepInv(c, INITIAL, es);
  }

  // ---------------------------------------------------------------- a registration across a rebuild

  lemma {:induction false} Join(c: Config, s: State, es: seq<Event>, more: seq<Event>)
    requires Valid(c, s, es) && Valid(c, Exec(c, s, es), more)
    ensures Valid(c, s, es + more) && Exec(c, s, es + more) == Exec(c, Exec(c, s, es), more)
    ensures Guarded(c, s, es) && Guarded(c, Exec(c, s, es), more) ==> Guarded(c, s, es + more)
    decreases |es|
  {
    if es == [] {
      assert es + more == more;
    } else {
      assert (es + more)[1..] == es[1..] + more;
      Join(c, Step(c, s, es[0]), es[1..], more);
    }
  }

  /** Two events. */
  lemma Twice(c: Config, s: State, e: Event, f: Event)
    requires Enabled(c, s, e) && Enabled(c, Step(c, s, e), f)
    ensures Valid(c, s, [e, f]) && Exec(c, s, [e, f]) == Step(c, Step(c, s, e), f)
    ensures GuardedEvent(s, e) && GuardedEvent(Step(c, s, e), f) ==> Guarded(c, s, [e, f])
  {
    var s1 := Step(c, s, e);
    assert [e, f][1..] == [f] && [f][1..] == [];
    assert Exec(c, s1, [f]) == Step(c, s1, f);
  }

  function AloneWith(c: Config, committed: set<Email>, rows: map<nat, Row>, filter: Filter, phase: Phase): State {
    State(0, committed, rows, filter, Some(Lease("a", c.lockSeconds)), map["a" := Warmer(c.timeout, phase)])
  }

  lemma TakesAndDrops(c: Config, rows: map<nat, Row>, filter: Filter)
    requires 0 < c.timeout
    ensures var s := State(0, {}, rows, filter, None, map[]);
            var es := [Acquire("a", 0), Drop("a")];
            && Valid(c, s, es) && Guarded(c, s, es)
            && Exec(c, s, es) == AloneWith(c, {}, Unkept(rows), EMPTY_FILTER, Dropped)
  {
    var s := State(0, {}, rows, filter, None, map[]);
    Twice(c, s, Acquire("a", 0), Drop("a"));
    assert Step(c, Step(c, s, Acquire("a", 0)), Drop("a")).warmers == map["a" := Warmer(c.timeout, Dropped)];
  }

  lemma ReservesAndScans(c: Config, rows: map<nat, Row>)
    requires 0 < c.timeout
    ensures var s := AloneWith(c, {}, rows, EMPTY_FILTER, Dropped);
            var es := [Reserve("a"), Scan("a")];
            && Valid(c, s, es) && Guarded(c, s, es)
            && Exec(c, s, es) == AloneWith(c, {}, rows, Filter(true, {}, None), Scanned({}))
  {
    var s := AloneWith(c, {}, rows, EMPTY_FILTER, Dropped);
    Twice(c, s, Reserve("a"), Scan("a"));
    assert Step(c, Step(c, s, Reserve("a")), Scan("a")).warmers == map["a" := Warmer(c.timeout, Scanned({}))];
  }

  /**
    The loss under every safe setting: a rebuild drops and scans between a registration's write and its
    commit. It publishes a filter without the address, although nothing failed.
   */
  lemma StraddledCommitIsMissed(c: Config) returns (run: seq<Event>)
    requires 0 < c.timeout <= c.lockSeconds
    ensures run == [Flush(0, "x@y"), Remember(0, Added), Acquire("a", 0), Drop("a"), Reserve("a"), Scan("a"),
                    Commit(0), Publish("a", "")]
    ensures Valid(c, INITIAL, run) && !NoFalseMiss(Exec(c, INITIAL, run)) && !Orderly(UNSEEN, run)
  {
    run := StraddledUntilScan(c);
    CommitsAndPublishes(c);
    Join(c, INITIAL, run, [Commit(0), Publish("a", "")]);
    run := run + [Commit(0), Publish("a", "")];
    if Orderly(UNSEEN, run) {
      OrderlyRunsMissNothing(c, run);
    }
  }

  function Pending(kept: bool): map<nat, Row> {
    map[0 := Recorded("x@y", kept)]
  }

  lemma FlushesAndRemembers(c: Config)
    ensures var es := [Flush(0, "x@y"), Remember(0, Added)];
            && Valid(c, INITIAL, es)
            && Exec(c, INITIAL, es) == State(0, {}, Pending(true), Filter(true, {"x@y"}, None), None, map[])
  {
    Twice(c, INITIAL, Flush(0, "x@y"), Remember(0, Added));
    assert Step(c, Step(c, INITIAL, Flush(0, "x@y")), Remember(0, Added)).rows == Pending(true);
  }

  lemma StraddledUntilScan(c: Config) returns (run: seq<Event>)
    requires 0 < c.timeout
    ensures run == [Flush(0, "x@y"), Remember(0, Added), Acquire("a", 0), Drop("a"), Reserve("a"), Scan("a")]
    ensures Valid(c, INITIAL, run)
    ensures Exec(c, INITIAL, run) ==
            AloneWith(c, {}, Pending(false), Filter(true, {}, None), Scanned({}))
  {
    run := [Flush(0, "x@y"), Remember(0, Added)];
    FlushesAndRemembers(c);
    TakesAndDrops(c, Pending(true), Filter(true, {"x@y"}, None));
    assert Unkept(Pending(true)) == Pending(false);
    Join(c, INITIAL, run, [Acquire("a", 0), Drop("a")]);
    run := run + [Acquire("a", 0), Drop("a")];
    ReservesAndScans(c, Pending(false));
    Join(c, INITIAL, run, [Reserve("a"), Scan("a")]);
    run := run + [Reserve("a"), Scan("a")];
  }

  lemma CommitsAndPublishes(c: Config)
    requires 0 < c.timeout
    ensures var s := AloneWith(c, {}, Pending(false), Filter(true, {}, None), Scanned({}));
            var es := [Commit(0), Publish("a", "")];
            Valid(c, s, es) && !NoFalseMiss(Exec(c, s, es))
  {
    var s := AloneWith(c, {}, Pending(false), Filter(true, {}, None), Scanned({}));
    Twice(c, s, Commit(0), Publish("a", ""));
    var s' := Step(c, Step(c, s, Commit(0)), Publish("a", ""));
    assert "x@y" in s'.committed && s'.filter == Filter(true, {}, Some(""));
  }

  // ---------------------------------------------------------------- a lookup is two calls

  /** The event inserts the address. */
  predicate Adds(s: State, e: Event, email: Email) {
    match e
    case Remember(r, w) => r in s.rows && s.rows[r].email == email && w.Added?
    case Repair(other, w) => other == email && w.Added?
    case AddBatch(_, batch) => email in batch
    case _ => false
  }

  predicate NeverAdds(c: Config, s: State, es: seq<Event>, email: Email)
    requires Valid(c, s, es)
    decreases |es|
  {
    es == [] || (!Adds(s, es[0], email) && NeverAdds(c, Step(c, s, es[0]), es[1..], email))
  }

  /** Some event of the run drops the filter, and nothing after it inserts the address. */
  predicate DroppedForGood(c: Config, s: State, es: seq<Event>, email: Email)
    requires Valid(c, s, es)
    decreases |es|
  {
    es != [] &&
    ((es[0].Drop? && NeverAdds(c, Step(c, s, es[0]), es[1..], email)) ||
     DroppedForGood(c, Step(c, s, es[0]), es[1..], email))
  }

  lemma {:induction false} AbsentIff(c: Config, s: State, es: seq<Event>, email: Email)
    requires Valid(c, s, es)
    ensures email !in Exec(c, s, es).filter.items <==>
            DroppedForGood(c, s, es, email) || (email !in s.filter.items && NeverAdds(c, s, es, email))
    decreases |es|
  {
    if es != [] {
      AbsentIff(c, Step(c, s, es[0]), es[1..], email);
    }
  }

  /**
    The marker and the entry are read by two calls that other clients may separate. Having found the
    marker up, a lookup can miss an address registered by then exactly when a rebuild dropped the
    filter in between and had not put the address back.
   */
  lemma SplitLookupIff(c: Config, run: seq<Event>, between: seq<Event>, email: Email)
    requires c.timeout <= c.lockSeconds
    requires Valid(c, INITIAL, run) && Guarded(c, INITIAL, run)
    requires Valid(c, Exec(c, INITIAL, run), between)
    requires Exec(c, INITIAL, run).filter.marker.Some? && email in Exec(c, INITIAL, run).committed
    ensures var s := Exec(c, INITIAL, run);
            email !in Exec(c, s, between).filter.items <==> DroppedForGood(c, s, between, email)
  {
    GuardedRunsKeepInv(c, INITIAL, run);
    AbsentIff(c, Exec(c, INITIAL, run), between, email);
  }

  /** A drop by a replica that just took the lock makes the lookup miss every address. */
  lemma SplitLookupFailsAcrossDrop(c: Config, s: State, t: Token, email: Email)
    requires s.filter.marker.Some? && email in s.committed
    requires Active(s, t) && s.warmers[t].phase.Entered?
    ensures Valid(c, s, [Drop(t)])
    ensures email !in Exec(c, s, [Drop(t)]).filter.items && email in Exec(c, s, [Drop(t)]).committed
  {
    assert Exec(c, s, [Drop(t)]) == Step(c, s, Drop(t));
  }

  /** It happens under every safe setting, after a guarded run: the second replica drops in between. */
  lemma SplitLookupFails(c: Config) returns (run: seq<Event>)
    requires 0 < c.timeout <= c.lockSeconds
    ensures Valid(c, INITIAL, run) && Guarded(c, INITIAL, run)
    ensures var s := Exec(c, INITIAL, run);
            && s.filter.marker.Some? && "x@y" in s.committed
            && Valid(c, s, [Drop("b")]) && "x@y" !in Exec(c, s, [Drop("b")]).filter.items
  {
    run := [Acquire("a", 0), Drop("a")];
    TakesAndDrops(c, map[], EMPTY_FILTER);
    assert Unkept(map[]) == map[];
    ReservesAndScans(c, map[]);
    Join(c, INITIAL, run, [Reserve("a"), Scan("a")]);
    run := run + [Reserve("a"), Scan("a")];
    PublishesThenFlushes(c);
    Join(c, INITIAL, run, [Publish("a", ""), Flush(0, "x@y")]);
    run := run + [Publish("a", ""), Flush(0, "x@y")];
    Registers(c);
    Join(c, INITIAL, run, [Remember(0, Added), Commit(0)]);
    run := run + [Remember(0, Added), Commit(0)];
    var s := Exec(c, INITIAL, run);
    var more := [Tick(c.lockSeconds), Acquire("b", c.lockSeconds)];
    Twice(c, s, more[0], more[1]);
    Join(c, INITIAL, run, more);
    run := run + more;
    assert Active(Exec(c, INITIAL, run), "b");
    SplitLookupFailsAcrossDrop(c, Exec(c, INITIAL, run), "b", "x@y");
  }

  lemma PublishesThenFlushes(c: Config)
    requires 0 < c.timeout
    ensures var s := AloneWith(c, {}, map[], Filter(true, {}, None), Scanned({}));
            var es := [Publish("a", ""), Flush(0, "x@y")];
            && Valid(c, s, es) && Guarded(c, s, es)
            && Exec(c, s, es) == AloneWith(c, {}, map[0 := Flushed("x@y")], Filter(true, {}, Some("")), Left)
  {
    var s := AloneWith(c, {}, map[], Filter(true, {}, None), Scanned({}));
    Twice(c, s, Publish("a", ""), Flush(0, "x@y"));
    assert Step(c, s, Publish("a", "")).warmers == map["a" := Warmer(c.timeout, Left)];
  }

  lemma Registers(c: Config)
    ensures var s := AloneWith(c, {}, map[0 := Flushed("x@y")], Filter(true, {}, Some("")), Left);
            var es := [Remember(0, Added), Commit(0)];
            && Valid(c, s, es) && Guarded(c, s, es)
            && Exec(c, s, es) == AloneWith(c, {"x@y"}, map[], Filter(true, {"x@y"}, Some("")), Left)
  {
    var s := AloneWith(c, {}, map[0 := Flushed("x@y")], Filter(true, {}, Some("")), Left);
    Twice(c, s, Remember(0, Added), Commit(0));
    assert Step(c, Step(c, s, Remember(0, Added)), Commit(0)).rows == map[];
  }
}
