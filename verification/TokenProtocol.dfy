/**
  Refreshes and revocations whose Redis round trips interleave. A refresh rotates and issues in two
  steps; a family revocation reads its set and deletes in two; revoking a user reads the user's
  families, revokes one after the other, and forgets the user's set. `Revoke` and `RevokeUser` are
  the same revocations with no call of anyone else in between.
 */
module TokenProtocol {
  import opened TokenStore

  /** A revocation between its two round trips: the session, and the digests it read. */
  datatype Revocation = Revocation(ses: Session, digests: set<Digest>)

  /** A user's revocation under way: the families read at its start and not revoked yet. */
  datatype Sweep = Sweep(user: User, left: set<Family>)

  /**
    `inFlight`: refreshes that rotated and have not issued yet. `drawn`, `sessions` and `spent` record
    every token and session ever created and every token ever rotated.
   */
  datatype State = State(
    store: Store,
    inFlight: map<nat, Session>,
    revoking: map<nat, Revocation>,
    sweeps: map<nat, Sweep>,
    drawn: set<Digest>,
    sessions: set<Session>,
    spent: set<Digest>)

  datatype Event =
    | Login(ses: Session, digest: Digest)
    | Rotate(call: nat, digest: Digest)
    | Issue(call: nat, next: Digest)
    | GiveUp(call: nat)
    | Revoke(ses: Session)
    | RevokeUser(user: User)
    | ReadFamily(call: nat, ses: Session)
    | DeleteRead(call: nat)
    | ReadUser(call: nat, user: User)
    | ForgetUser(call: nat)
    | Abandon(call: nat)
    | Elapse(seconds: nat)

  const INITIAL := State(Store(0, map[], map[], map[], map[]), map[], map[], map[], {}, {}, {})

  /**
    Tokens and family ids are drawn at random and taken to be new. A sweep revokes the families it
    read, one at a time; `Abandon` is a call that raised or crashed.
   */
  predicate Enabled(s: State, e: Event) {
    match e
    case Login(ses, d) => ses !in s.sessions && d !in s.drawn
    case Rotate(k, d) => k !in s.inFlight
    case Issue(k, d) => k in s.inFlight && d !in s.drawn
    case GiveUp(k) => k in s.inFlight
    case ReadFamily(k, ses) =>
      k !in s.revoking && (k in s.sweeps ==> ses.user == s.sweeps[k].user && ses.family in s.sweeps[k].left)
    case DeleteRead(k) => k in s.revoking
    case ReadUser(k, _) => k !in s.revoking && k !in s.sweeps
    case ForgetUser(k) => k in s.sweeps && s.sweeps[k].left == {} && k !in s.revoking
    case _ => true
  }

  function Swept(sweep: Sweep, ses: Session): Sweep {
    sweep.(left := sweep.left - {ses.family})
  }

  function Step(s: State, e: Event, ttl: nat): State
    requires Enabled(s, e)
  {
    match e
    case Login(ses, d) =>
      s.(store := TokenStore.Issue(s.store, ses, d, ttl), drawn := s.drawn + {d},
         sessions := s.sessions + {ses})
    case Rotate(k, d) =>
      var (store, r) := TokenStore.Rotate(s.store, d, ttl);
      if r.Rotated? then
        s.(store := store, inFlight := s.inFlight[k := r.session], spent := s.spent + {d})
      else s.(store := store)
    case Issue(k, d) =>
      s.(store := TokenStore.Issue(s.store, s.inFlight[k], d, ttl), drawn := s.drawn + {d},
         inFlight := s.inFlight - {k})
    case GiveUp(k) => s.(inFlight := s.inFlight - {k})
    case Revoke(ses) => s.(store := RevokeFamily(s.store, ses))
    case RevokeUser(u) => s.(store := RevokeAll(s.store, u))
    case ReadFamily(k, ses) =>
      s.(revoking := s.revoking[k := Revocation(ses, Members(s.store, ses))])
    case DeleteRead(k) =>
      s.(store := DeleteFamily(s.store, s.revoking[k].ses, s.revoking[k].digests),
         revoking := s.revoking - {k},
         sweeps := if k in s.sweeps then s.sweeps[k := Swept(s.sweeps[k], s.revoking[k].ses)] else s.sweeps)
    case ReadUser(k, u) => s.(sweeps := s.sweeps[k := Sweep(u, FamiliesOf(s.store, u))])
    case ForgetUser(k) =>
      s.(store := s.store.(users := s.store.users - {s.sweeps[k].user}), sweeps := s.sweeps - {k})
    case Abandon(k) => s.(revoking := s.revoking - {k}, sweeps := s.sweeps - {k})
    case Elapse(n) => s.(store := TokenStore.Elapse(s.store, n))
  }

  predicate Valid(s: State, es: seq<Event>, ttl: nat)
    decreases |es|
  {
    es == [] || (Enabled(s, es[0]) && Valid(Step(s, es[0], ttl), es[1..], ttl))
  }

  function Exec(s: State, es: seq<Event>, ttl: nat): State
    requires Valid(s, es, ttl)
    decreases |es|
  {
    if es == [] then s else Exec(Step(s, es[0], ttl), es[1..], ttl)
  }

  // ---------------------------------------------------------------- one live end per session

  function LiveTokens(s: State, ses: Session): set<Digest> {
    set d | d in s.store.refresh && s.store.refresh[d].value == ses
  }

  function Refreshing(s: State, ses: Session): set<nat> {
    set k | k in s.inFlight && s.inFlight[k] == ses
  }

  /** Redeemable tokens and refreshes in flight together number at most one. */
  predicate OneEnd(s: State, ses: Session) {
    |LiveTokens(s, ses)| + |Refreshing(s, ses)| <= 1
  }

  ghost predicate Ends(s: State) {
    && (forall d, e | d in s.store.refresh && e in s.store.refresh &&
          s.store.refresh[d].value == s.store.refresh[e].value :: d == e)
    && (forall k, l | k in s.inFlight && l in s.inFlight && s.inFlight[k] == s.inFlight[l] :: k == l)
    && (forall d, k | d in s.store.refresh && k in s.inFlight :: s.store.refresh[d].value != s.inFlight[k])
  }

  ghost predicate Recorded(s: State) {
    && s.store.refresh.Keys <= s.drawn && s.store.reuse.Keys <= s.drawn
    && s.spent <= s.drawn
    && s.store.refresh.Keys !! s.spent
    && (forall ses | ses in s.store.families :: s.store.families[ses].value <= s.drawn)
    && (forall d | d in s.store.refresh :: s.store.refresh[d].value in s.sessions)
    && (forall k | k in s.inFlight :: s.inFlight[k] in s.sessions)
  }

  /** The step deletes keys and set members, and nothing else. */
  ghost predicate Shrinks(s: Store, s': Store) {
    && s'.refresh.Keys <= s.refresh.Keys && s'.reuse.Keys <= s.reuse.Keys
    && (forall d | d in s'.refresh :: s'.refresh[d] == s.refresh[d])
    && s'.families.Keys <= s.families.Keys
    && (forall ses | ses in s'.families :: s'.families[ses] == s.families[ses])
    && (forall u | u in s'.users ::
          u in s.users && s'.users[u].value <= s.users[u].value && s'.users[u].expiry == s.users[u].expiry)
    && s.now <= s'.now
  }

  lemma RevocationsShrink(s: State, e: Event, ttl: nat)
    requires Enabled(s, e)
    requires !e.Login? && !e.Rotate? && !e.Issue?
    ensures Shrinks(s.store, Step(s, e, ttl).store)
  {}

  lemma ShrinkingKeepsEnds(s: State, s': State)
    requires Ends(s) && Recorded(s) && Shrinks(s.store, s'.store)
    requires forall k | k in s'.inFlight :: k in s.inFlight && s'.inFlight[k] == s.inFlight[k]
    requires s'.drawn == s.drawn && s'.sessions == s.sessions && s'.spent == s.spent
    ensures Ends(s') && Recorded(s')
  {}

  lemma RotateKeepsEnds(s: State, k: nat, d: Digest, ttl: nat)
    requires Ends(s) && Recorded(s) && Enabled(s, Rotate(k, d))
    ensures Ends(Step(s, Rotate(k, d), ttl)) && Recorded(Step(s, Rotate(k, d), ttl))
  {
    RotateMovesEnd(s, k, d, ttl);
    RotateKeepsRecorded(s, k, d, ttl);
  }

  lemma RotateMovesEnd(s: State, k: nat, d: Digest, ttl: nat)
    requires Ends(s) && Enabled(s, Rotate(k, d))
    ensures Ends(Step(s, Rotate(k, d), ttl))
  {}

  lemma RotateKeepsRecorded(s: State, k: nat, d: Digest, ttl: nat)
    requires Recorded(s) && Enabled(s, Rotate(k, d))
    ensures Recorded(Step(s, Rotate(k, d), ttl))
  {}

  /** Issuing to a session whose one end, if any, is the refresh that issues. */
  lemma IssueKeepsEnds(s: State, s': State, ses: Session, d: Digest, ttl: nat)
    requires Ends(s) && Recorded(s) && d !in s.drawn
    requires forall e | e in s.store.refresh :: s.store.refresh[e].value != ses
    requires forall k | k in s'.inFlight ::
               k in s.inFlight && s'.inFlight[k] == s.inFlight[k] && s'.inFlight[k] != ses
    requires s'.store == TokenStore.Issue(s.store, ses, d, ttl) && s'.drawn == s.drawn + {d}
    requires s'.sessions == s.sessions + {ses} && s'.spent == s.spent
    ensures Ends(s') && Recorded(s')
  {}

  lemma StepKeepsEnds(s: State, e: Event, ttl: nat)
    requires Ends(s) && Recorded(s) && Enabled(s, e)
    ensures Ends(Step(s, e, ttl)) && Recorded(Step(s, e, ttl))
  {
    var s' := Step(s, e, ttl);
    match e
    case Login(ses, d) => IssueKeepsEnds(s, s', ses, d, ttl);
    case Rotate(k, d) => RotateKeepsEnds(s, k, d, ttl);
    case Issue(k, d) => IssueKeepsEnds(s, s', s.inFlight[k], d, ttl);
    case _ =>
      RevocationsShrink(s, e, ttl);
      ShrinkingKeepsEnds(s, s');
  }

  lemma EndsBoundOne(s: State, ses: Session)
    requires Ends(s)
    ensures OneEnd(s, ses)
  {
    var ds := LiveTokens(s, ses);
    var ks := Refreshing(s, ses);
    if ds != {} {
      var d :| d in ds;
      assert ds == {d} && ks == {};
    } else if ks != {} {
      var k :| k in ks;
      assert ks == {k};
    }
  }

  /** Only a new digest is issued, so a redeemable token that had been drawn was redeemable before. */
  lemma StepOldOrNew(s: State, e: Event, d: Digest, ttl: nat)
    requires Enabled(s, e) && d in s.drawn && d in Step(s, e, ttl).store.refresh
    ensures d in s.store.refresh && s.store.refresh[d] == Step(s, e, ttl).store.refresh[d]
  {}

  lemma {:induction false} TokenOldOrNew(s: State, es: seq<Event>, d: Digest, ttl: nat)
    requires Valid(s, es, ttl) && d in s.drawn && d in Exec(s, es, ttl).store.refresh
    ensures d in s.store.refresh && s.store.refresh[d] == Exec(s, es, ttl).store.refresh[d]
    ensures es != [] ==> d in Step(s, es[0], ttl).store.refresh
    decreases |es|
  {
    if es != [] {
      TokenOldOrNew(Step(s, es[0], ttl), es[1..], d, ttl);
      StepOldOrNew(s, es[0], d, ttl);
    }
  }

  lemma {:induction false} RunsKeepEnds(s: State, es: seq<Event>, ttl: nat)
    requires Ends(s) && Recorded(s) && Valid(s, es, ttl)
    ensures Ends(Exec(s, es, ttl)) && Recorded(Exec(s, es, ttl))
    ensures s.drawn <= Exec(s, es, ttl).drawn && s.spent <= Exec(s, es, ttl).spent
    decreases |es|
  {
    if es != [] {
      StepKeepsEnds(s, es[0], ttl);
      RunsKeepEnds(Step(s, es[0], ttl), es[1..], ttl);
    }
  }

  /** In every interleaving each session has at most one live end. */
  lemma OneLiveEnd(es: seq<Event>, ses: Session, ttl: nat)
    requires Valid(INITIAL, es, ttl)
    ensures OneEnd(Exec(INITIAL, es, ttl), ses)
  {
    RunsKeepEnds(INITIAL, es, ttl);
    EndsBoundOne(Exec(INITIAL, es, ttl), ses);
  }

  /** No token is rotated twice: whatever follows its rotation, a later rotation of it fails. */
  lemma NeverRotatedTwice(before: seq<Event>, d: Digest, call: nat, after: seq<Event>, ttl: nat)
    requires Valid(INITIAL, before, ttl)
    requires TokenStore.Rotate(Exec(INITIAL, before, ttl).store, d, ttl).1.Rotated?
    requires Enabled(Exec(INITIAL, before, ttl), Rotate(call, d))
    requires Valid(Step(Exec(INITIAL, before, ttl), Rotate(call, d), ttl), after, ttl)
    ensures var s := Step(Exec(INITIAL, before, ttl), Rotate(call, d), ttl);
            !TokenStore.Rotate(Exec(s, after, ttl).store, d, ttl).1.Rotated?
  {
    RunsKeepEnds(INITIAL, before, ttl);
    var s := Exec(INITIAL, before, ttl);
    StepKeepsEnds(s, Rotate(call, d), ttl);
    RunsKeepEnds(Step(s, Rotate(call, d), ttl), after, ttl);
  }

  // ---------------------------------------------------------------- tokens their index has lost

  predicate Draws(e: Event, d: Digest) {
    (e.Login? && e.digest == d) || (e.Issue? && e.next == d)
  }

  /** The session a new token goes to. */
  function SessionOf(s: State, e: Event): Session
    requires Enabled(s, e) && (e.Login? || e.Issue?)
  {
    if e.Login? then e.ses else s.inFlight[e.call]
  }

  /** The event deletes the session's set after an earlier read; `deep`: or a sweep deletes its user's. */
  predicate Severs(s: State, e: Event, ses: Session, deep: bool)
    requires Enabled(s, e)
  {
    (e.DeleteRead? && s.revoking[e.call].ses == ses) ||
    (deep && e.ForgetUser? && s.sweeps[e.call].user == ses.user)
  }

  predicate Severed(s: State, es: seq<Event>, ses: Session, deep: bool, ttl: nat)
    requires Valid(s, es, ttl)
    decreases |es|
  {
    es != [] &&
    (Severs(s, es[0], ses, deep) || Severed(Step(s, es[0], ttl), es[1..], ses, deep, ttl))
  }

  /** After the token was issued, a split revocation of its session, or a sweep of its user, completed. */
  predicate CutOff(s: State, es: seq<Event>, d: Digest, deep: bool, ttl: nat)
    requires Valid(s, es, ttl)
    decreases |es|
  {
    es != [] &&
    ((Draws(es[0], d) && Severed(Step(s, es[0], ttl), es[1..], SessionOf(s, es[0]), deep, ttl)) ||
     CutOff(Step(s, es[0], ttl), es[1..], d, deep, ttl))
  }

  /** The token is in its session's set; `deep`: and the session in its user's. */
  predicate Listed(s: Store, d: Digest, deep: bool)
    requires d in s.refresh
  {
    var ses := s.refresh[d].value;
    d in Members(s, ses) && (deep ==> ses.family in FamiliesOf(s, ses.user))
  }

  /** What lists the token expires no earlier. */
  predicate OnTime(s: Store, d: Digest, ttl: nat)
    requires d in s.refresh
  {
    var t := s.refresh[d];
    && t.expiry <= s.now + ttl
    && (Listed(s, d, false) ==> t.expiry <= s.families[t.value].expiry)
    && (t.value.family in FamiliesOf(s, t.value.user) ==> t.expiry <= s.users[t.value.user].expiry)
  }

  ghost predicate Timely(s: Store, ttl: nat) {
    forall d {:trigger OnTime(s, d, ttl)} | d in s.refresh :: OnTime(s, d, ttl)
  }

  ghost predicate Sound(s: State, ttl: nat) {
    Ends(s) && Recorded(s) && Timely(s.store, ttl) && MembersOwned(s.store)
  }

  lemma IssueKeepsOnTime(s: Store, ses: Session, next: Digest, ttl: nat, d: Digest)
    requires d in s.refresh && d != next && OnTime(s, d, ttl)
    ensures OnTime(TokenStore.Issue(s, ses, next, ttl), d, ttl)
  {}

  lemma IssueKeepsTimely(s: Store, ses: Session, next: Digest, ttl: nat)
    requires Timely(s, ttl)
    ensures Timely(TokenStore.Issue(s, ses, next, ttl), ttl)
  {
    var s' := TokenStore.Issue(s, ses, next, ttl);
    forall d | d in s'.refresh ensures OnTime(s', d, ttl) {
      if d != next {
        assert OnTime(s, d, ttl);
        IssueKeepsOnTime(s, ses, next, ttl, d);
      }
    }
  }

  lemma ShrinkingKeepsOnTime(s: Store, s': Store, ttl: nat, d: Digest)
    requires Shrinks(s, s') && d in s'.refresh && OnTime(s, d, ttl)
    ensures OnTime(s', d, ttl)
  {}

  lemma ShrinkingKeepsTimely(s: Store, s': Store, ttl: nat)
    requires Timely(s, ttl) && Shrinks(s, s')
    ensures Timely(s', ttl)
  {
    forall d | d in s'.refresh ensures OnTime(s', d, ttl) {
      assert OnTime(s, d, ttl);
      ShrinkingKeepsOnTime(s, s', ttl, d);
    }
  }

  lemma StepKeepsTimely(s: State, e: Event, ttl: nat)
    requires Timely(s.store, ttl) && Enabled(s, e)
    ensures Timely(Step(s, e, ttl).store, ttl)
  {
    match e
    case Login(ses, d) => IssueKeepsTimely(s.store, ses, d, ttl);
    case Issue(k, d) => IssueKeepsTimely(s.store, s.inFlight[k], d, ttl);
    case Rotate(k, d) => RotateKeepsTimely(s.store, d, ttl);
    case _ =>
      RevocationsShrink(s, e, ttl);
      ShrinkingKeepsTimely(s.store, Step(s, e, ttl).store, ttl);
  }

  lemma RotateKeepsTimely(s: Store, d: Digest, ttl: nat)
    requires Timely(s, ttl)
    ensures Timely(TokenStore.Rotate(s, d, ttl).0, ttl)
  {
    var s' := TokenStore.Rotate(s, d, ttl).0;
    forall x | x in s'.refresh ensures OnTime(s', x, ttl) {
      assert OnTime(s, x, ttl);
    }
  }

  lemma StepKeepsOwned(s: State, e: Event, ttl: nat)
    requires Recorded(s) && MembersOwned(s.store) && Enabled(s, e)
    ensures MembersOwned(Step(s, e, ttl).store)
  {
    match e
    case Login(ses, d) => IssueKeepsMembers(s.store, ses, d, ttl);
    case Issue(k, d) => IssueKeepsMembers(s.store, s.inFlight[k], d, ttl);
    case _ =>
  }

  lemma StepKeepsSound(s: State, e: Event, ttl: nat)
    requires Sound(s, ttl) && Enabled(s, e)
    ensures Sound(Step(s, e, ttl), ttl)
  {
    StepKeepsEnds(s, e, ttl);
    StepKeepsTimely(s, e, ttl);
    StepKeepsOwned(s, e, ttl);
  }

  lemma {:induction false} RunsKeepSound(s: State, es: seq<Event>, ttl: nat)
    requires Sound(s, ttl) && Valid(s, es, ttl)
    ensures Sound(Exec(s, es, ttl), ttl)
    decreases |es|
  {
    if es != [] {
      StepKeepsSound(s, es[0], ttl);
      RunsKeepSound(Step(s, es[0], ttl), es[1..], ttl);
    }
  }

  lemma IssueKeepsListed(s: Store, ses: Session, next: Digest, ttl: nat, d: Digest, deep: bool)
    requires d in s.refresh && d != next && s.refresh[d].value != ses
    ensures Listed(TokenStore.Issue(s, ses, next, ttl), d, deep) <==> Listed(s, d, deep)
  {}

  lemma DeleteKeepsListed(s: Store, ses: Session, digests: set<Digest>, d: Digest, deep: bool)
    requires d in s.refresh && d !in digests
    ensures Listed(DeleteFamily(s, ses, digests), d, deep) <==> Listed(s, d, deep) && s.refresh[d].value != ses
  {}

  lemma RevokeAllKeepsListed(s: Store, u: User, d: Digest, deep: bool)
    requires d in s.refresh && d in RevokeAll(s, u).refresh
    ensures Listed(RevokeAll(s, u), d, deep) <==> Listed(s, d, deep)
  {
    var ses := s.refresh[d].value;
    var fs := FamiliesOf(s, u);
    assert ses == Session(ses.user, ses.family);
    assert ses in SessionsOf(u, fs) <==> ses.user == u && ses.family in fs;
    assert ses.user == u && ses.family in fs ==> d !in Members(s, Session(u, ses.family));
  }

  lemma ElapseKeepsListed(s: Store, n: nat, d: Digest, deep: bool, ttl: nat)
    requires d in s.refresh && OnTime(s, d, ttl) && d in TokenStore.Elapse(s, n).refresh
    ensures Listed(TokenStore.Elapse(s, n), d, deep) <==> Listed(s, d, deep)
  {}

  lemma RotateKeepsListed(s: Store, other: Digest, ttl: nat, d: Digest, deep: bool)
    requires d in s.refresh && d in TokenStore.Rotate(s, other, ttl).0.refresh
    ensures Listed(TokenStore.Rotate(s, other, ttl).0, d, deep) <==> Listed(s, d, deep)
  {}

  lemma ForgetKeepsListed(s: Store, u: User, d: Digest, deep: bool)
    requires d in s.refresh
    ensures Listed(s.(users := s.users - {u}), d, deep) <==>
            Listed(s, d, deep) && !(deep && s.refresh[d].value.user == u)
  {}

  /** A new token goes to a session that has no redeemable one. */
  lemma IssuesElsewhere(s: State, e: Event, d: Digest)
    requires Ends(s) && Recorded(s) && Enabled(s, e) && (e.Login? || e.Issue?) && d in s.store.refresh
    ensures s.store.refresh[d].value != SessionOf(s, e) && !Draws(e, d)
  {}

  /** A token that outlives a step is as well listed as before unless the step severs its session. */
  lemma StaysListed(s: State, e: Event, d: Digest, deep: bool, ttl: nat)
    requires Enabled(s, e) && d in s.store.refresh && OnTime(s.store, d, ttl)
    requires d in Step(s, e, ttl).store.refresh
    requires e.Login? || e.Issue? ==> s.store.refresh[d].value != SessionOf(s, e) && !Draws(e, d)
    ensures Listed(Step(s, e, ttl).store, d, deep) <==>
            Listed(s.store, d, deep) && !Severs(s, e, s.store.refresh[d].value, deep)
  {
    var store := s.store;
    match e
    case Login(ses, next) => IssueKeepsListed(store, ses, next, ttl, d, deep);
    case Issue(k, next) => IssueKeepsListed(store, s.inFlight[k], next, ttl, d, deep);
    case Rotate(_, other) => RotateKeepsListed(store, other, ttl, d, deep);
    case Revoke(ses) => DeleteKeepsListed(store, ses, Members(store, ses), d, deep);
    case RevokeUser(u) => RevokeAllKeepsListed(store, u, d, deep);
    case DeleteRead(k) => DeleteKeepsListed(store, s.revoking[k].ses, s.revoking[k].digests, d, deep);
    case ForgetUser(k) => ForgetKeepsListed(store, s.sweeps[k].user, d, deep);
    case Elapse(n) => ElapseKeepsListed(store, n, d, deep, ttl);
    case _ => assert Step(s, e, ttl).store == store;
  }

  lemma {:induction false} ListedUntilSevered(s: State, es: seq<Event>, d: Digest, deep: bool, ttl: nat)
    requires Sound(s, ttl) && Valid(s, es, ttl)
    requires d in s.store.refresh && d in Exec(s, es, ttl).store.refresh
    ensures Exec(s, es, ttl).store.refresh[d] == s.store.refresh[d]
    ensures Listed(Exec(s, es, ttl).store, d, deep) <==>
            Listed(s.store, d, deep) && !Severed(s, es, s.store.refresh[d].value, deep, ttl)
    decreases |es|
  {
    if es != [] {
      TokenOldOrNew(s, es, d, ttl);
      StepKeepsSound(s, es[0], ttl);
      assert OnTime(s.store, d, ttl);
      if es[0].Login? || es[0].Issue? {
        IssuesElsewhere(s, es[0], d);
      }
      StaysListed(s, es[0], d, deep, ttl);
      ListedUntilSevered(Step(s, es[0], ttl), es[1..], d, deep, ttl);
    }
  }

  lemma {:induction false} DrawnOnce(s: State, es: seq<Event>, d: Digest, deep: bool, ttl: nat)
    requires Valid(s, es, ttl) && d in s.drawn
    ensures !CutOff(s, es, d, deep, ttl)
    decreases |es|
  {
    if es != [] {
      DrawnOnce(Step(s, es[0], ttl), es[1..], d, deep, ttl);
    }
  }

  lemma DrawnIsListed(s: State, e: Event, d: Digest, deep: bool, ttl: nat)
    requires Enabled(s, e) && Draws(e, d)
    ensures var s' := Step(s, e, ttl);
            d in s'.store.refresh && s'.store.refresh[d].value == SessionOf(s, e) && Listed(s'.store, d, deep)
  {}

  /** A token that the first event of a run issues is listed until its session is severed. */
  lemma FirstIsListed(s: State, es: seq<Event>, d: Digest, deep: bool, ttl: nat)
    requires Sound(s, ttl) && Valid(s, es, ttl) && es != [] && Draws(es[0], d)
    requires d in Exec(s, es, ttl).store.refresh
    ensures Listed(Exec(s, es, ttl).store, d, deep) <==>
            !Severed(Step(s, es[0], ttl), es[1..], SessionOf(s, es[0]), deep, ttl)
  {
    StepKeepsSound(s, es[0], ttl);
    DrawnIsListed(s, es[0], d, deep, ttl);
    ListedUntilSevered(Step(s, es[0], ttl), es[1..], d, deep, ttl);
  }

  lemma {:induction false} ListedFrom(s: State, es: seq<Event>, d: Digest, deep: bool, ttl: nat)
    requires Sound(s, ttl) && Valid(s, es, ttl)
    requires d !in s.drawn && d in Exec(s, es, ttl).store.refresh
    ensures Listed(Exec(s, es, ttl).store, d, deep) <==> !CutOff(s, es, d, deep, ttl)
    decreases |es|
  {
    if es != [] {
      if Draws(es[0], d) {
        FirstIsListed(s, es, d, deep, ttl);
        DrawnOnce(Step(s, es[0], ttl), es[1..], d, deep, ttl);
      } else {
        StepKeepsSound(s, es[0], ttl);
        ListedFrom(Step(s, es[0], ttl), es[1..], d, deep, ttl);
      }
    }
  }

  /** After every interleaving a redeemable token is listed exactly if it was not cut off. */
  lemma ListedIff(run: seq<Event>, d: Digest, deep: bool, ttl: nat)
    requires Valid(INITIAL, run, ttl) && d in Exec(INITIAL, run, ttl).store.refresh
    ensures Listed(Exec(INITIAL, run, ttl).store, d, deep) <==> !CutOff(INITIAL, run, d, deep, ttl)
  {
    ListedFrom(INITIAL, run, d, deep, ttl);
  }

  lemma OwnedInRuns(run: seq<Event>, ttl: nat)
    requires Valid(INITIAL, run, ttl)
    ensures MembersOwned(Exec(INITIAL, run, ttl).store)
  {
    RunsKeepSound(INITIAL, run, ttl);
  }

  // ---------------------------------------------------------------- revoking a user

  /** The user has no redeemable token and no refresh that could still issue one. */
  ghost predicate SignedOut(s: State, u: User) {
    NoTokenOf(s.store, u) && forall k | k in s.inFlight :: s.inFlight[k].user != u
  }

  predicate LogsIn(es: seq<Event>, u: User) {
    exists i | 0 <= i < |es| :: es[i].Login? && es[i].ses.user == u
  }

  lemma {:induction false} StaysSignedOut(s: State, es: seq<Event>, u: User, ttl: nat)
    requires SignedOut(s, u) && Valid(s, es, ttl) && !LogsIn(es, u)
    ensures SignedOut(Exec(s, es, ttl), u)
    decreases |es|
  {
    if es != [] {
      assert !(es[0].Login? && es[0].ses.user == u);
      assert forall i | 0 <= i < |es| - 1 :: es[1..][i] == es[i + 1];
      StaysSignedOut(Step(s, es[0], ttl), es[1..], u, ttl);
    }
  }

  /** A refresh in flight issues its token whatever was revoked meanwhile. */
  lemma LateIssue(s: State, k: nat, ttl: nat) returns (es: seq<Event>)
    requires k in s.inFlight
    ensures Valid(s, es, ttl) && !LogsIn(es, s.inFlight[k].user)
    ensures es != [] && es[0].Issue? && LiveToken(Exec(s, es, ttl).store, es[0].next, s.inFlight[k])
    ensures !NoTokenOf(Exec(s, es, ttl).store, s.inFlight[k].user)
  {
    var next := NewDigest(s.drawn);
    es := [Issue(k, next)];
    assert es[1..] == [];
    assert Exec(s, es, ttl) == Step(s, es[0], ttl);
    assert next in Exec(s, es, ttl).store.refresh;
  }

  /** There is always a digest left to draw. */
  lemma {:induction false} NewDigest(drawn: set<Digest>) returns (d: Digest)
    ensures forall e | e in drawn :: |e| < |d|
    decreases drawn
  {
    if drawn == {} {
      d := "0";
    } else {
      var e :| e in drawn;
      var rest := NewDigest(drawn - {e});
      d := (if |e| < |rest| then rest else e) + "0";
    }
  }

  /** Revoking a user removes the user's tokens except those cut off before, and no one else's. */
  lemma RevokeUserSurvivors(run: seq<Event>, u: User, ttl: nat)
    requires Valid(INITIAL, run, ttl)
    ensures var s := Exec(INITIAL, run, ttl);
            Step(s, RevokeUser(u), ttl).store.refresh.Keys ==
            set d | d in s.store.refresh &&
                    (s.store.refresh[d].value.user == u ==> CutOff(INITIAL, run, d, true, ttl))
  {
    OwnedInRuns(run, ttl);
    var store := Exec(INITIAL, run, ttl).store;
    forall d | d in store.refresh
      ensures d in RevokeAll(store, u).refresh <==>
              (store.refresh[d].value.user == u ==> CutOff(INITIAL, run, d, true, ttl))
    {
      ListedIff(run, d, true, ttl);
      OnlyOwnDigests(store, u, d);
    }
  }

  lemma OnlyOwnDigests(s: Store, u: User, d: Digest)
    requires MembersOwned(s) && d in s.refresh
    ensures d in DigestsOf(s, u, FamiliesOf(s, u)) <==> s.refresh[d].value.user == u && Listed(s, d, true)
  {
    var ses := s.refresh[d].value;
    assert ses == Session(ses.user, ses.family);
    if d in DigestsOf(s, u, FamiliesOf(s, u)) {
      var f :| f in FamiliesOf(s, u) && d in Members(s, Session(u, f));
      assert Session(u, f) in s.families && Session(u, f) == ses;
    }
  }

  /**
    Revoking a user, as a password reset or change does, is final exactly when no redeemable token of
    the user was cut off before and none of the user's refreshes is between its two steps. A token cut
    off stays; a refresh in flight issues one afterwards; otherwise only a new login can.
   */
  lemma RevokeUserIsFinalIff(run: seq<Event>, u: User, ttl: nat)
    requires Valid(INITIAL, run, ttl)
    ensures var s := Exec(INITIAL, run, ttl);
            var s' := Step(s, RevokeUser(u), ttl);
            (forall es | Valid(s', es, ttl) && !LogsIn(es, u) :: NoTokenOf(Exec(s', es, ttl).store, u))
            <==>
            && (forall k | k in s.inFlight :: s.inFlight[k].user != u)
            && (forall d | d in s.store.refresh && s.store.refresh[d].value.user == u ::
                  !CutOff(INITIAL, run, d, true, ttl))
  {
    RevokeUserSurvivors(run, u, ttl);
    var s := Exec(INITIAL, run, ttl);
    var s' := Step(s, RevokeUser(u), ttl);
    assert forall d | d in s'.store.refresh :: d in s'.store.refresh.Keys;
    if k :| k in s.inFlight && s.inFlight[k].user == u {
      var es := LateIssue(s', k, ttl);
      assert !NoTokenOf(Exec(s', es, ttl).store, u);
    } else if d :| d in s.store.refresh && s.store.refresh[d].value.user == u &&
                   CutOff(INITIAL, run, d, true, ttl) {
      assert d in s'.store.refresh.Keys && !NoTokenOf(s'.store, u);
      var none: seq<Event> := [];
      assert Valid(s', none, ttl) && Exec(s', none, ttl) == s' && !LogsIn(none, u);
    } else {
      forall es | Valid(s', es, ttl) && !LogsIn(es, u) ensures NoTokenOf(Exec(s', es, ttl).store, u) {
        StaysSignedOut(s', es, u, ttl);
      }
    }
  }

  // ---------------------------------------------------------------- split revocations

  /**
    If other calls come between reading a family set and deleting what was read, the session's
    tokens that survive the revocation are exactly those issued in between, and those that an earlier
    split revocation had cut off from the set.
   */
  lemma SplitRevocationSurvivors(run: seq<Event>, ses: Session, call: nat, between: seq<Event>, ttl: nat)
    requires Valid(INITIAL, run, ttl)
    requires Enabled(Exec(INITIAL, run, ttl), ReadFamily(call, ses))
    requires Valid(Step(Exec(INITIAL, run, ttl), ReadFamily(call, ses), ttl), between, ttl)
    requires DeleteRead(call) !in between && Abandon(call) !in between
    ensures var s0 := Exec(INITIAL, run, ttl);
            var s1 := Exec(Step(s0, ReadFamily(call, ses), ttl), between, ttl);
            && Enabled(s1, DeleteRead(call))
            && LiveTokens(Step(s1, DeleteRead(call), ttl), ses) ==
               set d | d in LiveTokens(s1, ses) && (d !in s0.drawn || CutOff(INITIAL, run, d, false, ttl))
  {
    var s0 := Exec(INITIAL, run, ttl);
    var s0' := Step(s0, ReadFamily(call, ses), ttl);
    ReadStands(s0', between, call, ttl);
    var s1 := Exec(s0', between, ttl);
    forall d | d in LiveTokens(s1, ses)
      ensures d in Members(s0.store, ses) <==> d in s0.drawn && !CutOff(INITIAL, run, d, false, ttl)
    {
      if d in s0.drawn {
        TokenOldOrNew(s0', between, d, ttl);
        ListedIff(run, d, false, ttl);
      } else {
        MembersDrawn(run, ses, ttl);
      }
    }
    DeletedExactly(s1, call, ses, Members(s0.store, ses), ttl);
  }

  lemma MembersDrawn(run: seq<Event>, ses: Session, ttl: nat)
    requires Valid(INITIAL, run, ttl)
    ensures Members(Exec(INITIAL, run, ttl).store, ses) <= Exec(INITIAL, run, ttl).drawn
  {
    RunsKeepEnds(INITIAL, run, ttl);
  }

  lemma DeletedExactly(s: State, call: nat, ses: Session, digests: set<Digest>, ttl: nat)
    requires call in s.revoking && s.revoking[call] == Revocation(ses, digests)
    ensures LiveTokens(Step(s, DeleteRead(call), ttl), ses) == LiveTokens(s, ses) - digests
  {}

  lemma {:induction false} ReadStands(s: State, es: seq<Event>, call: nat, ttl: nat)
    requires Valid(s, es, ttl) && call in s.revoking && DeleteRead(call) !in es && Abandon(call) !in es
    ensures call in Exec(s, es, ttl).revoking && Exec(s, es, ttl).revoking[call] == s.revoking[call]
    decreases |es|
  {
    if es != [] {
      ReadStands(Step(s, es[0], ttl), es[1..], call, ttl);
    }
  }

  /** Another call completes a split revocation of the session. */
  predicate OthersDelete(s: State, es: seq<Event>, call: nat, ses: Session, ttl: nat)
    requires Valid(s, es, ttl)
    decreases |es|
  {
    es != [] &&
    ((es[0].DeleteRead? && es[0].call != call && s.revoking[es[0].call].ses == ses) ||
     OthersDelete(Step(s, es[0], ttl), es[1..], call, ses, ttl))
  }

  /** The sweep still has to revoke the token's family, and whatever it read of it holds the token. */
  ghost predicate StillReached(s: State, call: nat, d: Digest)
    requires d in s.store.refresh
  {
    var ses := s.store.refresh[d].value;
    && call in s.sweeps && s.sweeps[call].user == ses.user && ses.family in s.sweeps[call].left
    && Listed(s.store, d, false)
    && (call in s.revoking && s.revoking[call].ses == ses ==> d in s.revoking[call].digests)
    && (call in s.revoking ==> s.revoking[call].ses.user == ses.user)
  }

  lemma StepReaches(s: State, e: Event, call: nat, d: Digest, ttl: nat)
    requires Enabled(s, e) && e != Abandon(call) && e != ForgetUser(call)
    requires d in s.store.refresh && OnTime(s.store, d, ttl) && StillReached(s, call, d)
    requires d in Step(s, e, ttl).store.refresh && Step(s, e, ttl).store.refresh[d] == s.store.refresh[d]
    requires e.Login? || e.Issue? ==> s.store.refresh[d].value != SessionOf(s, e) && !Draws(e, d)
    requires !(e.DeleteRead? && e.call != call && s.revoking[e.call].ses == s.store.refresh[d].value)
    ensures StillReached(Step(s, e, ttl), call, d)
  {
    StaysListed(s, e, d, false, ttl);
    var ses := s.store.refresh[d].value;
    assert ses == Session(ses.user, ses.family);
  }

  lemma FirstStepReaches(s: State, es: seq<Event>, call: nat, d: Digest, ttl: nat)
    requires Sound(s, ttl) && Valid(s, es, ttl) && es != []
    requires es[0] != Abandon(call) && es[0] != ForgetUser(call)
    requires d in s.store.refresh && d in Exec(s, es, ttl).store.refresh && StillReached(s, call, d)
    requires !OthersDelete(s, es, call, s.store.refresh[d].value, ttl)
    ensures var s1 := Step(s, es[0], ttl);
            d in s1.store.refresh && s1.store.refresh[d] == s.store.refresh[d] && StillReached(s1, call, d)
  {
    TokenOldOrNew(s, es, d, ttl);
    StepOldOrNew(s, es[0], d, ttl);
    assert OnTime(s.store, d, ttl);
    if es[0].Login? || es[0].Issue? {
      IssuesElsewhere(s, es[0], d);
    }
    StepReaches(s, es[0], call, d, ttl);
  }

  lemma {:induction false} SweepReaches(s: State, es: seq<Event>, call: nat, d: Digest, ttl: nat)
    requires Sound(s, ttl) && Valid(s, es, ttl) && Abandon(call) !in es && ForgetUser(call) !in es
    requires d in s.store.refresh && d in Exec(s, es, ttl).store.refresh && StillReached(s, call, d)
    requires !OthersDelete(s, es, call, s.store.refresh[d].value, ttl)
    ensures StillReached(Exec(s, es, ttl), call, d)
    decreases |es|
  {
    if es != [] {
      FirstStepReaches(s, es, call, d, ttl);
      StepKeepsSound(s, es[0], ttl);
      SweepReaches(Step(s, es[0], ttl), es[1..], call, d, ttl);
    }
  }

  /**
    When a sweep of a user has revoked all it read, a token of the user that is still redeemable was
    issued since the sweep began, or had been cut off before, or lost its listing to another
    revocation of its session meanwhile.
   */
  lemma SweepSurvivors(run: seq<Event>, u: User, call: nat, between: seq<Event>, d: Digest, ttl: nat)
    requires Valid(INITIAL, run, ttl)
    requires Enabled(Exec(INITIAL, run, ttl), ReadUser(call, u))
    requires Valid(Step(Exec(INITIAL, run, ttl), ReadUser(call, u), ttl), between, ttl)
    requires Abandon(call) !in between && ForgetUser(call) !in between
    requires var s1 := Exec(Step(Exec(INITIAL, run, ttl), ReadUser(call, u), ttl), between, ttl);
             Enabled(s1, ForgetUser(call)) && d in s1.store.refresh && s1.store.refresh[d].value.user == u
    ensures var s0 := Exec(INITIAL, run, ttl);
            var s0' := Step(s0, ReadUser(call, u), ttl);
            || d !in s0.drawn
            || CutOff(INITIAL, run, d, true, ttl)
            || OthersDelete(s0', between, call, Exec(s0', between, ttl).store.refresh[d].value, ttl)
  {
    RunsKeepSound(INITIAL, run, ttl);
    var s0 := Exec(INITIAL, run, ttl);
    var s0' := Step(s0, ReadUser(call, u), ttl);
    StepKeepsSound(s0, ReadUser(call, u), ttl);
    if d in s0.drawn && !CutOff(INITIAL, run, d, true, ttl) {
      TokenOldOrNew(s0', between, d, ttl);
      ListedIff(run, d, true, ttl);
      var ses := s0'.store.refresh[d].value;
      assert StillReached(s0', call, d);
      if !OthersDelete(s0', between, call, ses, ttl) {
        SweepReaches(s0', between, call, d, ttl);
      }
    }
  }

  // ---------------------------------------------------------------- revocations with no one in between

  /** The events are steps of this call alone. */
  predicate StepsOf(es: seq<Event>, call: nat) {
    forall e | e in es ::
      (e.ReadUser? || e.ReadFamily? || e.DeleteRead? || e.ForgetUser?) && e.call == call
  }

  /** The two steps of a family revocation, one right after the other, are `Revoke`. */
  lemma RevokeAlone(s: State, call: nat, ses: Session, ttl: nat)
    requires Enabled(s, ReadFamily(call, ses))
    ensures var s1 := Step(s, ReadFamily(call, ses), ttl);
            && Enabled(s1, DeleteRead(call))
            && Step(s1, DeleteRead(call), ttl).store == Step(s, Revoke(ses), ttl).store
            && Step(s1, DeleteRead(call), ttl).revoking == s.revoking
  {
    var s1 := Step(s, ReadFamily(call, ses), ttl);
    assert s1.revoking - {call} == s.revoking;
  }

  /** The steps of a sweep, with no one in between, are `RevokeUser`. */
  lemma SweepAlone(s: State, call: nat, u: User, ttl: nat) returns (es: seq<Event>)
    requires Enabled(s, ReadUser(call, u))
    ensures Valid(s, es, ttl) && StepsOf(es, call)
    ensures Exec(s, es, ttl).store == Step(s, RevokeUser(u), ttl).store
    ensures Exec(s, es, ttl).revoking == s.revoking && Exec(s, es, ttl).sweeps == s.sweeps
  {
    var s1 := Step(s, ReadUser(call, u), ttl);
    RevokeSomeNone(s.store, u);
    var rest := SweepOn(s.store, s1, call, u, {}, ttl);
    Prepend(s, ReadUser(call, u), rest, ttl);
    es := [ReadUser(call, u)] + rest;
    assert s1.sweeps - {call} == s.sweeps;
  }

  /** The sweep has revoked the families `done`, and nothing else has happened. */
  ghost predicate Sweeping(before: Store, s: State, call: nat, u: User, done: set<Family>) {
    && call in s.sweeps && call !in s.revoking && done <= FamiliesOf(before, u)
    && s.sweeps[call] == Sweep(u, FamiliesOf(before, u) - done) && s.store == RevokeSome(before, u, done)
  }

  lemma {:induction false} SweepOn(before: Store, s: State, call: nat, u: User, done: set<Family>, ttl: nat)
    returns (es: seq<Event>)
    requires Sweeping(before, s, call, u, done)
    ensures Valid(s, es, ttl) && StepsOf(es, call) && Exec(s, es, ttl).store == RevokeAll(before, u)
    ensures Exec(s, es, ttl).revoking == s.revoking && Exec(s, es, ttl).sweeps == s.sweeps - {call}
    decreases FamiliesOf(before, u) - done
  {
    if s.sweeps[call].left == {} {
      SweepEnds(before, s, call, u, done, ttl);
      Prepend(s, ForgetUser(call), [], ttl);
      es := [ForgetUser(call)] + [];
    } else {
      var f :| f in s.sweeps[call].left;
      var ses := Session(u, f);
      SweepOne(before, s, call, u, done, f, ttl);
      var s1 := Step(s, ReadFamily(call, ses), ttl);
      var rest := SweepOn(before, Step(s1, DeleteRead(call), ttl), call, u, done + {f}, ttl);
      Prepend(s1, DeleteRead(call), rest, ttl);
      Prepend(s, ReadFamily(call, ses), [DeleteRead(call)] + rest, ttl);
      es := [ReadFamily(call, ses)] + ([DeleteRead(call)] + rest);
    }
  }

  lemma SweepEnds(before: Store, s: State, call: nat, u: User, done: set<Family>, ttl: nat)
    requires Sweeping(before, s, call, u, done) && s.sweeps[call].left == {}
    ensures Enabled(s, ForgetUser(call))
    ensures var s' := Step(s, ForgetUser(call), ttl);
            s'.store == RevokeAll(before, u) && s'.revoking == s.revoking && s'.sweeps == s.sweeps - {call}
  {
    assert FamiliesOf(before, u) == done + s.sweeps[call].left;
    ForgottenIsRevoked(before, u);
  }

  lemma SweepOne(before: Store, s: State, call: nat, u: User, done: set<Family>, f: Family, ttl: nat)
    requires Sweeping(before, s, call, u, done) && f in s.sweeps[call].left
    ensures Enabled(s, ReadFamily(call, Session(u, f)))
    ensures var s1 := Step(s, ReadFamily(call, Session(u, f)), ttl);
            && Enabled(s1, DeleteRead(call))
            && var s2 := Step(s1, DeleteRead(call), ttl);
               && Sweeping(before, s2, call, u, done + {f})
               && s2.revoking == s.revoking && s2.sweeps - {call} == s.sweeps - {call}
  {
    RevokeAlone(s, call, Session(u, f), ttl);
    RevokeSomeMore(before, u, done, f);
    assert FamiliesOf(before, u) - (done + {f}) == s.sweeps[call].left - {f};
  }

  lemma Prepend(s: State, e: Event, es: seq<Event>, ttl: nat)
    requires Enabled(s, e) && Valid(Step(s, e, ttl), es, ttl)
    ensures Valid(s, [e] + es, ttl) && Exec(s, [e] + es, ttl) == Exec(Step(s, e, ttl), es, ttl)
  {
    assert ([e] + es)[1..] == es;
  }

  lemma ForgottenIsRevoked(s: Store, u: User)
    ensures var fs := FamiliesOf(s, u);
            RevokeSome(s, u, fs).(users := RevokeSome(s, u, fs).users - {u}) == RevokeAll(s, u)
  {
    assert WithoutSome(s.users, u, FamiliesOf(s, u)) - {u} == s.users - {u};
  }

  // ---------------------------------------------------------------- revoking a family

  /** The session has no redeemable token and no refresh that could still issue one. */
  ghost predicate Over(s: State, ses: Session) {
    && (forall d | d in s.store.refresh :: s.store.refresh[d].value != ses)
    && (forall k | k in s.inFlight :: s.inFlight[k] != ses)
  }

  lemma OverAsSets(s: State, ses: Session)
    ensures Over(s, ses) <==> LiveTokens(s, ses) == {} && Refreshing(s, ses) == {}
  {
    assert forall d | d in s.store.refresh && s.store.refresh[d].value == ses :: d in LiveTokens(s, ses);
    assert forall k | k in s.inFlight && s.inFlight[k] == ses :: k in Refreshing(s, ses);
  }

  lemma {:induction false} StaysOver(s: State, es: seq<Event>, ses: Session, ttl: nat)
    requires Valid(s, es, ttl) && ses in s.sessions && Over(s, ses)
    ensures Over(Exec(s, es, ttl), ses)
    decreases |es|
  {
    if es != [] {
      StaysOver(Step(s, es[0], ttl), es[1..], ses, ttl);
    }
  }

  /** Whatever follows, the session has no redeemable token. */
  ghost predicate OverForGood(s: State, ses: Session, ttl: nat) {
    forall es | Valid(s, es, ttl) :: LiveTokens(Exec(s, es, ttl), ses) == {}
  }

  lemma OverIff(s: State, ses: Session, ttl: nat)
    requires ses in s.sessions
    ensures OverForGood(s, ses, ttl) <==> Over(s, ses)
  {
    OverAsSets(s, ses);
    if Over(s, ses) {
      forall es | Valid(s, es, ttl) ensures LiveTokens(Exec(s, es, ttl), ses) == {} {
        StaysOver(s, es, ses, ttl);
        OverAsSets(Exec(s, es, ttl), ses);
      }
    } else if LiveTokens(s, ses) != {} {
      assert Valid(s, [], ttl) && Exec(s, [], ttl) == s;
    } else {
      var k :| k in Refreshing(s, ses);
      var es := LateIssue(s, k, ttl);
      assert es[0].next in LiveTokens(Exec(s, es, ttl), ses);
    }
  }

  /** A refresh that rotated and is given up leaves its session over. */
  lemma GivenUpIsOver(s: State, k: nat, ttl: nat)
    requires Ends(s) && k in s.inFlight
    ensures Over(Step(s, GiveUp(k), ttl), s.inFlight[k])
  {}

  /** A revocation that is cut short changes nothing any more. */
  lemma AbandonedEnds(s: State, call: nat, ttl: nat)
    ensures var s' := Step(s, Abandon(call), ttl);
            && s'.store == s.store && !Enabled(s', DeleteRead(call)) && !Enabled(s', ForgetUser(call))
            && forall k | k != call :: (k in s'.revoking <==> k in s.revoking) && (k in s'.sweeps <==> k in s.sweeps)
  {}

  /**
    Revoking a family, as a replay or a logout does, is final exactly when none of its refreshes is
    between its two steps and no redeemable token of it was cut off from its set.
   */
  lemma RevokeFamilyIsFinalIff(run: seq<Event>, ses: Session, ttl: nat)
    requires Valid(INITIAL, run, ttl) && ses in Exec(INITIAL, run, ttl).sessions
    ensures var s := Exec(INITIAL, run, ttl);
            var s' := Step(s, Revoke(ses), ttl);
            OverForGood(s', ses, ttl) <==>
            && Refreshing(s, ses) == {}
            && forall d | d in LiveTokens(s, ses) :: !CutOff(INITIAL, run, d, false, ttl)
  {
    var s := Exec(INITIAL, run, ttl);
    RevokeLeaves(s, ses, ttl);
    ListedGoneIff(run, Step(s, Revoke(ses), ttl), ses, ttl);
  }

  lemma RevokeLeaves(s: State, ses: Session, ttl: nat)
    ensures var s' := Step(s, Revoke(ses), ttl);
            && LiveTokens(s', ses) == LiveTokens(s, ses) - Members(s.store, ses)
            && Refreshing(s', ses) == Refreshing(s, ses) && s'.sessions == s.sessions
  {}

  /** A state that only lacks the tokens that the session's set listed. */
  lemma ListedGoneIff(run: seq<Event>, s': State, ses: Session, ttl: nat)
    requires Valid(INITIAL, run, ttl) && ses in s'.sessions
    requires var s := Exec(INITIAL, run, ttl);
             && LiveTokens(s', ses) == LiveTokens(s, ses) - Members(s.store, ses)
             && Refreshing(s', ses) == Refreshing(s, ses)
    ensures var s := Exec(INITIAL, run, ttl);
            OverForGood(s', ses, ttl) <==>
            && Refreshing(s, ses) == {}
            && forall d | d in LiveTokens(s, ses) :: !CutOff(INITIAL, run, d, false, ttl)
  {
    OverIff(s', ses, ttl);
    OverAsSets(s', ses);
    LiveAndListed(run, ses, ttl);
    var live := LiveTokens(Exec(INITIAL, run, ttl), ses);
    var listed := Members(Exec(INITIAL, run, ttl).store, ses);
    if d :| d in live && d !in listed {
      assert d in live - listed;
    }
  }

  lemma {:induction false} SpentSessionsKnown(s: State, es: seq<Event>, ttl: nat)
    requires Ends(s) && Recorded(s) && Valid(s, es, ttl)
    requires forall d | d in s.store.reuse :: s.store.reuse[d].value in s.sessions
    ensures forall d | d in Exec(s, es, ttl).store.reuse ::
              Exec(s, es, ttl).store.reuse[d].value in Exec(s, es, ttl).sessions
    decreases |es|
  {
    if es != [] {
      StepKeepsEnds(s, es[0], ttl);
      StepKeepsSpentKnown(s, es[0], ttl);
      SpentSessionsKnown(Step(s, es[0], ttl), es[1..], ttl);
    }
  }

  lemma StepKeepsSpentKnown(s: State, e: Event, ttl: nat)
    requires Recorded(s) && Enabled(s, e)
    requires forall d | d in s.store.reuse :: s.store.reuse[d].value in s.sessions
    ensures forall d | d in Step(s, e, ttl).store.reuse ::
              Step(s, e, ttl).store.reuse[d].value in Step(s, e, ttl).sessions
  {
    var s' := Step(s, e, ttl);
    forall d | d in s'.store.reuse ensures s'.store.reuse[d].value in s'.sessions {
      if e.Rotate? && d == e.digest {
        assert d in s.store.refresh ==> s'.store.reuse[d].value == s.store.refresh[d].value;
      } else {
        assert d in s.store.reuse && s'.store.reuse[d].value == s.store.reuse[d].value;
      }
    }
  }

  /**
    Replaying a spent token after any run. `through`: the revocation that follows the script goes
    through; otherwise a call of it raises. Either way the script has deleted the record of the token.
   */
  lemma ReplayIsFinalIff(run: seq<Event>, call: nat, d: Digest, through: bool, ttl: nat)
    requires Valid(INITIAL, run, ttl) && Enabled(Exec(INITIAL, run, ttl), Rotate(call, d))
    requires TokenStore.Rotate(Exec(INITIAL, run, ttl).store, d, ttl).1.Reused?
    ensures var s := Exec(INITIAL, run, ttl);
            var ses := s.store.reuse[d].value;
            var s1 := Step(s, Rotate(call, d), ttl);
            && TokenStore.Rotate(s1.store, d, ttl).1.Missing?
            && (OverForGood(if through then Step(s1, Revoke(ses), ttl) else s1, ses, ttl) <==>
                && Refreshing(s, ses) == {}
                && forall e | e in LiveTokens(s, ses) :: through && !CutOff(INITIAL, run, e, false, ttl))
  {
    var s := Exec(INITIAL, run, ttl);
    var ses := s.store.reuse[d].value;
    ReplayLeaves(s, call, d, ttl);
    SessionOfSpent(run, d, ttl);
    var s1 := Step(s, Rotate(call, d), ttl);
    if through {
      RevokeLeaves(s1, ses, ttl);
      ListedGoneIff(run, Step(s1, Revoke(ses), ttl), ses, ttl);
    } else {
      OverIff(s1, ses, ttl);
      OverAsSets(s1, ses);
    }
  }

  lemma ReplayLeaves(s: State, call: nat, d: Digest, ttl: nat)
    requires Enabled(s, Rotate(call, d)) && TokenStore.Rotate(s.store, d, ttl).1.Reused?
    ensures var ses := s.store.reuse[d].value;
            var s1 := Step(s, Rotate(call, d), ttl);
            && TokenStore.Rotate(s1.store, d, ttl).1.Missing? && s1.sessions == s.sessions
            && LiveTokens(s1, ses) == LiveTokens(s, ses) && Refreshing(s1, ses) == Refreshing(s, ses)
            && Members(s1.store, ses) == Members(s.store, ses)
  {}

  lemma LiveAndListed(run: seq<Event>, ses: Session, ttl: nat)
    requires Valid(INITIAL, run, ttl)
    ensures var s := Exec(INITIAL, run, ttl);
            forall d | d in LiveTokens(s, ses) ::
              d in Members(s.store, ses) <==> !CutOff(INITIAL, run, d, false, ttl)
  {
    var s := Exec(INITIAL, run, ttl);
    forall d | d in LiveTokens(s, ses)
      ensures d in Members(s.store, ses) <==> !CutOff(INITIAL, run, d, false, ttl)
    {
      ListedIff(run, d, false, ttl);
    }
  }

  lemma SessionOfSpent(run: seq<Event>, d: Digest, ttl: nat)
    requires Valid(INITIAL, run, ttl) && d in Exec(INITIAL, run, ttl).store.reuse
    ensures Exec(INITIAL, run, ttl).store.reuse[d].value in Exec(INITIAL, run, ttl).sessions
  {
    SpentSessionsKnown(INITIAL, run, ttl);
  }

  /**
    A family revocation with its two steps taken apart: besides, no token may be issued in between.
    What matters of a refresh is where it stands when the deletion is done: it may have begun before
    the read.
   */
  lemma SplitRevocationIsFinalIff(run: seq<Event>, ses: Session, call: nat, between: seq<Event>, ttl: nat)
    requires Valid(INITIAL, run, ttl) && ses in Exec(INITIAL, run, ttl).sessions
    requires Enabled(Exec(INITIAL, run, ttl), ReadFamily(call, ses))
    requires Valid(Step(Exec(INITIAL, run, ttl), ReadFamily(call, ses), ttl), between, ttl)
    requires DeleteRead(call) !in between && Abandon(call) !in between
    ensures var s0 := Exec(INITIAL, run, ttl);
            var s1 := Exec(Step(s0, ReadFamily(call, ses), ttl), between, ttl);
            && Enabled(s1, DeleteRead(call))
            && var s2 := Step(s1, DeleteRead(call), ttl);
               OverForGood(s2, ses, ttl) <==>
               && Refreshing(s1, ses) == {}
               && forall d | d in LiveTokens(s1, ses) :: d in s0.drawn && !CutOff(INITIAL, run, d, false, ttl)
  {
    SplitRevocationSurvivors(run, ses, call, between, ttl);
    var s0 := Exec(INITIAL, run, ttl);
    var s0' := Step(s0, ReadFamily(call, ses), ttl);
    var s1 := Exec(s0', between, ttl);
    var s2 := Step(s1, DeleteRead(call), ttl);
    SessionsStay(s0', between, ttl);
    DeletionIsFinalIff(s1, call, ses, ttl);
    var left := LiveTokens(s2, ses);
    assert forall d | d in LiveTokens(s1, ses) ::
        d in left <==> d !in s0.drawn || CutOff(INITIAL, run, d, false, ttl);
  }

  lemma DeletionIsFinalIff(s: State, call: nat, ses: Session, ttl: nat)
    requires call in s.revoking && ses in s.sessions
    ensures var s' := Step(s, DeleteRead(call), ttl);
            OverForGood(s', ses, ttl) <==> LiveTokens(s', ses) == {} && Refreshing(s, ses) == {}
  {
    var s' := Step(s, DeleteRead(call), ttl);
    OverIff(s', ses, ttl);
    OverAsSets(s', ses);
    assert Refreshing(s', ses) == Refreshing(s, ses);
  }

  lemma {:induction false} SessionsStay(s: State, es: seq<Event>, ttl: nat)
    requires Valid(s, es, ttl)
    ensures s.sessions <= Exec(s, es, ttl).sessions
    decreases |es|
  {
    if es != [] {
      SessionsStay(Step(s, es[0], ttl), es[1..], ttl);
    }
  }

  // ---------------------------------------------------------------- undisturbed revocations

  /** A new token meets no revocation of its session and no sweep of its user under way. */
  ghost predicate Calm(s: State, e: Event)
    requires Enabled(s, e)
  {
    e.Login? || e.Issue? ==>
      && (forall k | k in s.revoking :: s.revoking[k].ses != SessionOf(s, e))
      && (forall k | k in s.sweeps :: s.sweeps[k].user != SessionOf(s, e).user)
  }

  /**
    In the whole run nothing is issued to a session between the read and the deletion of its
    revocation, and nothing to a user between the first and the last step of a sweep.
   */
  ghost predicate Undisturbed(s: State, es: seq<Event>, ttl: nat)
    requires Valid(s, es, ttl)
    decreases |es|
  {
    es == [] || (Calm(s, es[0]) && Undisturbed(Step(s, es[0], ttl), es[1..], ttl))
  }

  /** What a revocation or a sweep has read covers all that there is to revoke. */
  ghost predicate ReadsCover(s: State) {
    && (forall k | k in s.revoking ::
          && Members(s.store, s.revoking[k].ses) <= s.revoking[k].digests <= s.drawn
          && forall d | d in s.revoking[k].digests && d in s.store.refresh ::
               s.store.refresh[d].value == s.revoking[k].ses)
    && (forall k | k in s.sweeps :: FamiliesOf(s.store, s.sweeps[k].user) <= s.sweeps[k].left)
    && (forall k | k in s.sweeps && k in s.revoking :: s.revoking[k].ses.user == s.sweeps[k].user)
  }

  lemma FamilyReadsCover(s: State, e: Event, ttl: nat)
    requires Recorded(s) && MembersOwned(s.store) && ReadsCover(s) && Enabled(s, e) && Calm(s, e)
    ensures var s' := Step(s, e, ttl);
            forall k | k in s'.revoking ::
              && Members(s'.store, s'.revoking[k].ses) <= s'.revoking[k].digests <= s'.drawn
              && forall d | d in s'.revoking[k].digests && d in s'.store.refresh ::
                   s'.store.refresh[d].value == s'.revoking[k].ses
  {
    FamilyReadsOwned(s, e, ttl);
  }

  lemma FamilyReadsOwned(s: State, e: Event, ttl: nat)
    requires Recorded(s) && MembersOwned(s.store) && ReadsCover(s) && Enabled(s, e)
    ensures var s' := Step(s, e, ttl);
            forall k, d | k in s'.revoking && d in s'.revoking[k].digests && d in s'.store.refresh ::
              s'.store.refresh[d].value == s'.revoking[k].ses
  {}

  lemma UserReadsCover(s: State, e: Event, ttl: nat)
    requires ReadsCover(s) && Enabled(s, e) && Calm(s, e)
    ensures var s' := Step(s, e, ttl);
            forall k | k in s'.sweeps :: FamiliesOf(s'.store, s'.sweeps[k].user) <= s'.sweeps[k].left
  {}

  lemma StepKeepsReads(s: State, e: Event, ttl: nat)
    requires Recorded(s) && MembersOwned(s.store) && ReadsCover(s) && Enabled(s, e) && Calm(s, e)
    ensures ReadsCover(Step(s, e, ttl))
  {
    FamilyReadsCover(s, e, ttl);
    UserReadsCover(s, e, ttl);
  }

  lemma StepKeepsIndex(s: State, e: Event, ttl: nat)
    requires 0 < ttl && Recorded(s) && ReadsCover(s) && Index(s.store, ttl) && Enabled(s, e)
    ensures Index(Step(s, e, ttl).store, ttl)
  {
    match e
    case Login(ses, d) => IssueKeepsIndex(s.store, ses, d, ttl);
    case Rotate(k, d) => RotateKeepsIndex(s.store, d, ttl);
    case Issue(k, d) => IssueKeepsIndex(s.store, s.inFlight[k], d, ttl);
    case Revoke(ses) => RevokeFamilyKeepsIndex(s.store, ses, ttl);
    case RevokeUser(u) => RevokeAllKeepsIndex(s.store, u, ttl);
    case DeleteRead(k) => DeleteFamilyKeepsIndex(s.store, s.revoking[k].ses, s.revoking[k].digests, ttl);
    case ForgetUser(k) => SweptUserIsGone(s, k, ttl);
    case Elapse(n) => ElapseKeepsIndex(s.store, n, ttl);
    case _ =>
  }

  /** A sweep with nothing left to revoke has left nothing of its user. */
  lemma SweptUserIsGone(s: State, call: nat, ttl: nat)
    requires ReadsCover(s) && Index(s.store, ttl) && Enabled(s, ForgetUser(call))
    ensures NoTokenOf(s.store, s.sweeps[call].user)
    ensures forall ses | ses in s.store.families :: ses.user != s.sweeps[call].user
  {
    assert FamiliesOf(s.store, s.sweeps[call].user) == {};
  }

  /** In undisturbed runs, split revocations included, the index outlives every token. */
  lemma {:induction false} RunsKeepIndex(s: State, es: seq<Event>, ttl: nat)
    requires 0 < ttl && Ends(s) && Recorded(s) && ReadsCover(s) && Index(s.store, ttl)
    requires Valid(s, es, ttl) && Undisturbed(s, es, ttl)
    ensures Index(Exec(s, es, ttl).store, ttl) && ReadsCover(Exec(s, es, ttl))
    decreases |es|
  {
    if es != [] {
      StepKeepsEnds(s, es[0], ttl);
      StepKeepsReads(s, es[0], ttl);
      StepKeepsIndex(s, es[0], ttl);
      RunsKeepIndex(Step(s, es[0], ttl), es[1..], ttl);
    }
  }

  lemma IndexLists(s: Store, d: Digest, ttl: nat)
    requires Index(s, ttl) && d in s.refresh
    ensures Listed(s, d, true)
  {}

  /**
    After an undisturbed run no redeemable token is cut off. So revoking a user leaves no token of the
    user, it is final exactly when none of the user's refreshes is between its two steps, and a sweep
    that got through leaves no token either.
   */
  lemma UndisturbedRevocations(run: seq<Event>, u: User, call: nat, ttl: nat)
    requires 0 < ttl && Valid(INITIAL, run, ttl) && Undisturbed(INITIAL, run, ttl)
    ensures var s := Exec(INITIAL, run, ttl);
            var s' := Step(s, RevokeUser(u), ttl);
            && (forall d | d in s.store.refresh :: !CutOff(INITIAL, run, d, true, ttl))
            && NoTokenOf(s'.store, u)
            && ((forall es | Valid(s', es, ttl) && !LogsIn(es, u) :: NoTokenOf(Exec(s', es, ttl).store, u))
                <==> forall k | k in s.inFlight :: s.inFlight[k].user != u)
            && (Enabled(s, ForgetUser(call)) ==> NoTokenOf(s.store, s.sweeps[call].user))
  {
    var s := Exec(INITIAL, run, ttl);
    forall d | d in s.store.refresh ensures !CutOff(INITIAL, run, d, true, ttl) {
      UndisturbedCutsNothingOff(run, d, ttl);
    }
    UndisturbedRevokeLeavesNone(run, u, ttl);
    if Enabled(s, ForgetUser(call)) {
      UndisturbedSweepLeavesNone(run, call, ttl);
    }
    RevokeUserIsFinalIff(run, u, ttl);
  }

  lemma UndisturbedCutsNothingOff(run: seq<Event>, d: Digest, ttl: nat)
    requires 0 < ttl && Valid(INITIAL, run, ttl) && Undisturbed(INITIAL, run, ttl)
    requires d in Exec(INITIAL, run, ttl).store.refresh
    ensures !CutOff(INITIAL, run, d, true, ttl)
  {
    RunsKeepIndex(INITIAL, run, ttl);
    IndexLists(Exec(INITIAL, run, ttl).store, d, ttl);
    ListedIff(run, d, true, ttl);
  }

  lemma UndisturbedRevokeLeavesNone(run: seq<Event>, u: User, ttl: nat)
    requires 0 < ttl && Valid(INITIAL, run, ttl) && Undisturbed(INITIAL, run, ttl)
    ensures NoTokenOf(RevokeAll(Exec(INITIAL, run, ttl).store, u), u)
  {
    RunsKeepIndex(INITIAL, run, ttl);
    RevokingLeavesNone(Exec(INITIAL, run, ttl).store, u, ttl);
  }

  lemma UndisturbedSweepLeavesNone(run: seq<Event>, call: nat, ttl: nat)
    requires 0 < ttl && Valid(INITIAL, run, ttl) && Undisturbed(INITIAL, run, ttl)
    requires Enabled(Exec(INITIAL, run, ttl), ForgetUser(call))
    ensures NoTokenOf(Exec(INITIAL, run, ttl).store, Exec(INITIAL, run, ttl).sweeps[call].user)
  {
    RunsKeepIndex(INITIAL, run, ttl);
    SweptUserIsGone(Exec(INITIAL, run, ttl), call, ttl);
  }

  // ---------------------------------------------------------------- disturbed revocations

  lemma {:induction false} Extend(s: State, es: seq<Event>, e: Event, ttl: nat)
    requires Valid(s, es, ttl) && Enabled(Exec(s, es, ttl), e)
    ensures Valid(s, es + [e], ttl) && Exec(s, es + [e], ttl) == Step(Exec(s, es, ttl), e, ttl)
    ensures Undisturbed(s, es, ttl) && Calm(Exec(s, es, ttl), e) ==> Undisturbed(s, es + [e], ttl)
    decreases |es|
  {
    if es == [] {
      assert Exec(Step(s, e, ttl), [e][1..], ttl) == Step(s, e, ttl);
    } else {
      assert (es + [e])[1..] == es[1..] + [e];
      Extend(Step(s, es[0], ttl), es[1..], e, ttl);
    }
  }

  /** No call is under way. */
  predicate Idle(s: State) {
    s.inFlight == map[] && s.revoking == map[] && s.sweeps == map[]
  }

  /**
    A refresh that issues between the two steps of a family revocation: when all calls are over, its
    token is out of every set, and revoking the user does not find it.
   */
  lemma RefreshEscapesRevocation(ses: Session, ttl: nat) returns (run: seq<Event>)
    ensures run == [Login(ses, "a"), Rotate(0, "a"), ReadFamily(1, ses), Issue(0, "b"), DeleteRead(1)]
    ensures Valid(INITIAL, run, ttl) && Idle(Exec(INITIAL, run, ttl))
    ensures LiveToken(Step(Exec(INITIAL, run, ttl), RevokeUser(ses.user), ttl).store, "b", ses)
  {
    run := RotatedAndRead(ses, ttl);
    IssuesAndDeletes(Exec(INITIAL, run, ttl), ses, ttl);
    Extend(INITIAL, run, Issue(0, "b"), ttl);
    run := run + [Issue(0, "b")];
    Extend(INITIAL, run, DeleteRead(1), ttl);
    run := run + [DeleteRead(1)];
  }

  lemma IssuesAndDeletes(s: State, ses: Session, ttl: nat)
    requires s.inFlight == map[0 := ses] && s.revoking == map[1 := Revocation(ses, {"a"})]
    requires s.sweeps == map[] && s.drawn == {"a"} && FamiliesOf(s.store, ses.user) == {ses.family}
    ensures Enabled(s, Issue(0, "b"))
    ensures var s1 := Step(s, Issue(0, "b"), ttl);
            && Enabled(s1, DeleteRead(1))
            && var s2 := Step(s1, DeleteRead(1), ttl);
               Idle(s2) && LiveToken(Step(s2, RevokeUser(ses.user), ttl).store, "b", ses)
  {
    var s1 := Step(s, Issue(0, "b"), ttl);
    assert s1.inFlight == map[] && s1.revoking[1] == Revocation(ses, {"a"});
    var s2 := Step(s1, DeleteRead(1), ttl);
    assert s2.revoking == map[] && FamiliesOf(s2.store, ses.user) == {};
  }

  lemma RotatedAndRead(ses: Session, ttl: nat) returns (run: seq<Event>)
    ensures run == [Login(ses, "a"), Rotate(0, "a"), ReadFamily(1, ses)] && Valid(INITIAL, run, ttl)
    ensures var s := Exec(INITIAL, run, ttl);
            && s.inFlight == map[0 := ses] && s.revoking == map[1 := Revocation(ses, {"a"})]
            && s.sweeps == map[] && s.drawn == {"a"} && FamiliesOf(s.store, ses.user) == {ses.family}
  {
    run := [];
    Extend(INITIAL, run, Login(ses, "a"), ttl);
    run := run + [Login(ses, "a")];
    assert Members(Exec(INITIAL, run, ttl).store, ses) == {"a"};
    Extend(INITIAL, run, Rotate(0, "a"), ttl);
    run := run + [Rotate(0, "a")];
    assert Exec(INITIAL, run, ttl).inFlight == map[0 := ses];
    Extend(INITIAL, run, ReadFamily(1, ses), ttl);
    run := run + [ReadFamily(1, ses)];
  }

  /** A login during a sweep of its user: its family is forgotten with the user's set. */
  lemma LoginEscapesSweep(u: User, ttl: nat) returns (run: seq<Event>)
    ensures run == [ReadUser(1, u), Login(Session(u, "f"), "a"), ForgetUser(1)]
    ensures Valid(INITIAL, run, ttl) && Idle(Exec(INITIAL, run, ttl))
    ensures LiveToken(Step(Exec(INITIAL, run, ttl), RevokeUser(u), ttl).store, "a", Session(u, "f"))
  {
    run := [];
    Extend(INITIAL, run, ReadUser(1, u), ttl);
    run := run + [ReadUser(1, u)];
    assert Exec(INITIAL, run, ttl).sweeps == map[1 := Sweep(u, {})];
    Extend(INITIAL, run, Login(Session(u, "f"), "a"), ttl);
    run := run + [Login(Session(u, "f"), "a")];
    Extend(INITIAL, run, ForgetUser(1), ttl);
    run := run + [ForgetUser(1)];
    assert Exec(INITIAL, run, ttl).sweeps == map[];
    assert FamiliesOf(Exec(INITIAL, run, ttl).store, u) == {};
  }

  /**
    The replay that a refresh in flight outlives. The token "a" is replayed while "b" is between
    rotation and issue. All three calls of the replay go through, nothing is issued into it, and at the
    end, with no call under way, "c" is redeemable and no record of a spent token is left, so that no
    later replay is recognised.
   */
  lemma RefreshEscapesReplay(ses: Session, ttl: nat) returns (run: seq<Event>)
    ensures run == [Login(ses, "a"), Rotate(0, "a"), Issue(0, "b"), Rotate(1, "b"),
                    Rotate(2, "a"), ReadFamily(2, ses), DeleteRead(2), Issue(1, "c")]
    ensures Valid(INITIAL, run[..4], ttl)
    ensures TokenStore.Rotate(Exec(INITIAL, run[..4], ttl).store, "a", ttl).1 == Reused(ses)
    ensures Valid(INITIAL, run, ttl) && Undisturbed(INITIAL, run, ttl) && Idle(Exec(INITIAL, run, ttl))
    ensures LiveToken(Exec(INITIAL, run, ttl).store, "c", ses) && Exec(INITIAL, run, ttl).store.reuse == map[]
  {
    run := RefreshedAndRotated(ses, ttl);
    var first := run;
    assert Exec(INITIAL, run, ttl).store.reuse.Keys == {"a", "b"};
    Extend(INITIAL, run, Rotate(2, "a"), ttl);
    run := run + [Rotate(2, "a")];
    assert run[..4] == first;
    var more := ReplaysAndIssues(run, ses, ttl);
    assert more[..4] == first;
    run := more;
  }

  lemma ReplaysAndIssues(run: seq<Event>, ses: Session, ttl: nat) returns (more: seq<Event>)
    requires Valid(INITIAL, run, ttl) && Undisturbed(INITIAL, run, ttl)
    requires var s := Exec(INITIAL, run, ttl);
             && s.store.refresh == map[] && s.store.reuse.Keys <= {"a", "b"}
             && Members(s.store, ses) == {"a", "b"} && s.inFlight == map[1 := ses]
             && s.revoking == map[] && s.sweeps == map[] && s.drawn == {"a", "b"}
    ensures more == run + [ReadFamily(2, ses), DeleteRead(2), Issue(1, "c")]
    ensures Valid(INITIAL, more, ttl) && Undisturbed(INITIAL, more, ttl) && Idle(Exec(INITIAL, more, ttl))
    ensures LiveToken(Exec(INITIAL, more, ttl).store, "c", ses) && Exec(INITIAL, more, ttl).store.reuse == map[]
  {
    var s := Exec(INITIAL, run, ttl);
    DeletesAndIssues(s, ses, ttl);
    more := run;
    Extend(INITIAL, more, ReadFamily(2, ses), ttl);
    more := more + [ReadFamily(2, ses)];
    Extend(INITIAL, more, DeleteRead(2), ttl);
    more := more + [DeleteRead(2)];
    Extend(INITIAL, more, Issue(1, "c"), ttl);
    more := more + [Issue(1, "c")];
  }

  lemma DeletesAndIssues(s: State, ses: Session, ttl: nat)
    requires s.store.refresh == map[] && s.store.reuse.Keys <= {"a", "b"}
    requires Members(s.store, ses) == {"a", "b"} && s.inFlight == map[1 := ses]
    requires s.revoking == map[] && s.sweeps == map[] && s.drawn == {"a", "b"}
    ensures Enabled(s, ReadFamily(2, ses))
    ensures var s1 := Step(s, ReadFamily(2, ses), ttl);
            && Enabled(s1, DeleteRead(2))
            && var s2 := Step(s1, DeleteRead(2), ttl);
               && Enabled(s2, Issue(1, "c")) && Calm(s2, Issue(1, "c"))
               && var s3 := Step(s2, Issue(1, "c"), ttl);
                  Idle(s3) && LiveToken(s3.store, "c", ses) && s3.store.reuse == map[]
  {
    var s1 := Step(s, ReadFamily(2, ses), ttl);
    assert s1.revoking == map[2 := Revocation(ses, {"a", "b"})];
    var s2 := Step(s1, DeleteRead(2), ttl);
    assert s2.revoking == map[] && s2.store.reuse == map[];
    assert Step(s2, Issue(1, "c"), ttl).inFlight == map[];
  }

  lemma RefreshedAndRotated(ses: Session, ttl: nat) returns (run: seq<Event>)
    ensures run == [Login(ses, "a"), Rotate(0, "a"), Issue(0, "b"), Rotate(1, "b")]
    ensures Valid(INITIAL, run, ttl) && Undisturbed(INITIAL, run, ttl)
    ensures var s := Exec(INITIAL, run, ttl);
            && s.store.refresh == map[] && s.store.reuse == map["a" := Timed(ses, ttl), "b" := Timed(ses, ttl)]
            && Members(s.store, ses) == {"a", "b"} && s.inFlight == map[1 := ses]
            && s.revoking == map[] && s.sweeps == map[] && s.drawn == {"a", "b"}
  {
    run := [];
    Extend(INITIAL, run, Login(ses, "a"), ttl);
    run := run + [Login(ses, "a")];
    Extend(INITIAL, run, Rotate(0, "a"), ttl);
    run := run + [Rotate(0, "a")];
    Extend(INITIAL, run, Issue(0, "b"), ttl);
    run := run + [Issue(0, "b")];
    Extend(INITIAL, run, Rotate(1, "b"), ttl);
    run := run + [Rotate(1, "b")];
  }
}
