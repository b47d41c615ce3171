/** Runs of whole service calls on the token store, and what replaying a spent token does to them. */
module TokenSessions {
  import opened TokenStore

  /** `Refresh`: rotate, then issue if the user still exists (`known`). `Wait`: time passes. */
  datatype Call =
    | Login(ses: Session, digest: Digest)
    | Refresh(spent: Digest, next: Digest, known: bool)
    | RevokeToken(digest: Digest)
    | RevokeUser(user: User)
    | Wait(seconds: nat)

  const EMPTY := Store(0, map[], map[], map[], map[])

  ghost predicate FreshSession(s: Store, ses: Session) {
    && ses !in s.families
    && (forall d | d in s.refresh :: s.refresh[d].value != ses)
    && (forall d | d in s.reuse :: s.reuse[d].value != ses)
  }

  ghost predicate Enabled(s: Store, call: Call) {
    match call
    case Login(ses, d) => FreshSession(s, ses) && Fresh(s, d)
    case Refresh(_, next, _) => Fresh(s, next)
    case _ => true
  }

  function RefreshCall(s: Store, d: Digest, next: Digest, known: bool, ttl: nat): Store {
    var (s', r) := RotateRefresh(s, d, ttl);
    if r.Rotated? && known then Issue(s', r.session, next, ttl) else s'
  }

  function Step(s: Store, call: Call, ttl: nat): Store {
    match call
    case Login(ses, d) => Issue(s, ses, d, ttl)
    case Refresh(d, next, known) => RefreshCall(s, d, next, known, ttl)
    case RevokeToken(d) => RevokeRefresh(s, d)
    case RevokeUser(u) => RevokeAll(s, u)
    case Wait(n) => Elapse(s, n)
  }

  ghost predicate Valid(s: Store, calls: seq<Call>, ttl: nat)
    decreases |calls|
  {
    calls == [] || (Enabled(s, calls[0]) && Valid(Step(s, calls[0], ttl), calls[1..], ttl))
  }

  function Exec(s: Store, calls: seq<Call>, ttl: nat): Store
    decreases |calls|
  {
    if calls == [] then s else Exec(Step(s, calls[0], ttl), calls[1..], ttl)
  }

  /** A session is a chain with one live end, whose spent tokens its family set still lists. */
  ghost predicate Chains(s: Store) {
    && s.refresh.Keys !! s.reuse.Keys
    && (forall d, e | d in s.refresh && e in s.refresh :: s.refresh[d].value == s.refresh[e].value ==> d == e)
    && (forall d, e | d in s.reuse && e in s.refresh && s.refresh[e].value == s.reuse[d].value ::
          s.reuse[d].value in s.families && d in s.families[s.reuse[d].value].value)
  }

  ghost predicate Inv(s: Store, ttl: nat) {
    Index(s, ttl) && Chains(s)
  }

  /** Between rotation and issue a session has no redeemable token, and lists all its spent ones. */
  ghost predicate Awaiting(s: Store, ses: Session) {
    && (forall d | d in s.refresh :: s.refresh[d].value != ses)
    && (forall d | d in s.reuse && s.reuse[d].value == ses :: d in Members(s, ses))
  }

  lemma RotateOpensSession(s: Store, d: Digest, ttl: nat)
    requires Inv(s, ttl) && d in s.refresh
    ensures Inv(Rotate(s, d, ttl).0, ttl) && Awaiting(Rotate(s, d, ttl).0, s.refresh[d].value)
  {
    RotateKeepsIndex(s, d, ttl);
  }

  lemma IssueKeepsChains(s: Store, ses: Session, d: Digest, ttl: nat)
    requires Chains(s) && Awaiting(s, ses) && Fresh(s, d)
    ensures Chains(Issue(s, ses, d, ttl))
  {}

  lemma RevokeFamilyKeepsChains(s: Store, ses: Session, ttl: nat)
    requires Inv(s, ttl)
    ensures Chains(RevokeFamily(s, ses))
  {}

  lemma RefreshKeepsInv(s: Store, d: Digest, next: Digest, known: bool, ttl: nat)
    requires 0 < ttl && Inv(s, ttl) && Fresh(s, next)
    ensures Inv(RefreshCall(s, d, next, known, ttl), ttl)
  {
    var (s1, r) := Rotate(s, d, ttl);
    match r
    case Rotated(ses) =>
      RotateOpensSession(s, d, ttl);
      IssueKeepsIndex(s1, ses, next, ttl);
      IssueKeepsChains(s1, ses, next, ttl);
    case Reused(ses) =>
      RotateKeepsIndex(s, d, ttl);
      RevokeFamilyKeepsIndex(s1, ses, ttl);
      RevokeFamilyKeepsChains(s1, ses, ttl);
    case Missing =>
  }

  lemma StepKeepsInv(s: Store, call: Call, ttl: nat)
    requires 0 < ttl && Inv(s, ttl) && Enabled(s, call)
    ensures Inv(Step(s, call, ttl), ttl)
  {
    match call
    case Login(ses, d) =>
      IssueKeepsIndex(s, ses, d, ttl);
      IssueKeepsChains(s, ses, d, ttl);
    case Refresh(d, next, known) => RefreshKeepsInv(s, d, next, known, ttl);
    case RevokeToken(d) =>
      if d in s.refresh {
        RevokeFamilyKeepsIndex(s, s.refresh[d].value, ttl);
        RevokeFamilyKeepsChains(s, s.refresh[d].value, ttl);
      }
    case RevokeUser(u) =>
      RevokeAllKeepsIndex(s, u, ttl);
      IndexReachesTokens(s, u, ttl);
      IndexReachesFamilies(s, u, ttl);
    case Wait(n) => ElapseKeepsIndex(s, n, ttl);
  }

  lemma {:induction false} RunsKeepInv(s: Store, calls: seq<Call>, ttl: nat)
    requires 0 < ttl && Inv(s, ttl) && Valid(s, calls, ttl)
    ensures Inv(Exec(s, calls, ttl), ttl)
    decreases |calls|
  {
    if calls != [] {
      StepKeepsInv(s, calls[0], ttl);
      RunsKeepInv(Step(s, calls[0], ttl), calls[1..], ttl);
    }
  }

  /**
    Replaying a spent token that is still remembered leaves no redeemable token in its session and
    every other session as it was; if the session had a redeemable token, nothing of the session is
    left at all. Replaying it a second time finds and changes nothing.
   */
  ghost predicate ReplayKills(s: Store, d: Digest, ttl: nat)
    requires d in s.reuse
  {
    var ses := s.reuse[d].value;
    var (s', r) := RotateRefresh(s, d, ttl);
    && r == Reused(ses)
    && (forall e :: !LiveToken(s', e, ses))
    && s'.families == s.families - {ses}
    && (forall e, other | LiveToken(s, e, other) && other != ses ::
          LiveToken(s', e, other) && s'.refresh[e] == s.refresh[e])
    && (forall e | e in s.reuse && s.reuse[e].value != ses ::
          e in s'.reuse && s'.reuse[e] == s.reuse[e])
    && ((exists e :: LiveToken(s, e, ses)) ==> forall e | e in s'.reuse :: s'.reuse[e].value != ses)
    && RotateRefresh(s', d, ttl) == (s', Missing)
  }

  lemma InvMakesReplayKill(s: Store, d: Digest, ttl: nat)
    requires Inv(s, ttl) && d in s.reuse
    ensures ReplayKills(s, d, ttl)
  {
    var ses := s.reuse[d].value;
    var (s1, _) := Rotate(s, d, ttl);
    RotateKeepsIndex(s, d, ttl);
    RevokeFamilyIsExact(s1, ses, ttl);
  }

  /**
    The script consumes the record of the spent token before the family is revoked. If a call raises
    in between, the session's redeemable token survives, and a second replay finds nothing to act on:
    a replay that reached the script kills the session exactly if all three calls go through or there
    was no redeemable token left.
   */
  lemma InterruptedReplay(s: Store, d: Digest, ttl: nat, budget: nat)
    requires Inv(s, ttl) && d in s.reuse && 0 < budget
    ensures var ses := s.reuse[d].value;
            var s' := RotateUpTo(s, d, ttl, budget);
            && ((forall e :: !LiveToken(s', e, ses)) <==> budget >= 3 || forall e :: !LiveToken(s, e, ses))
            && Rotate(s', d, ttl) == (s', Missing)
  {
    InvMakesReplayKill(s, d, ttl);
    var s' := RotateUpTo(s, d, ttl, budget);
    if budget < 3 {
      assert s'.refresh == s.refresh;
      assert forall e :: LiveToken(s', e, s.reuse[d].value) == LiveToken(s, e, s.reuse[d].value);
    }
  }

  /** It does so after every run of service calls. */
  lemma ReplayKillsItsChain(calls: seq<Call>, d: Digest, ttl: nat)
    requires 0 < ttl && Valid(EMPTY, calls, ttl)
    requires d in Exec(EMPTY, calls, ttl).reuse
    ensures ReplayKills(Exec(EMPTY, calls, ttl), d, ttl)
  {
    RunsKeepInv(EMPTY, calls, ttl);
    InvMakesReplayKill(Exec(EMPTY, calls, ttl), d, ttl);
  }

  /** After every run of service calls, logging out with a redeemable token ends exactly its session. */
  lemma LogoutEndsSession(calls: seq<Call>, d: Digest, ttl: nat)
    requires 0 < ttl && Valid(EMPTY, calls, ttl)
    ensures var s := Exec(EMPTY, calls, ttl);
            var s' := Step(s, RevokeToken(d), ttl);
            && (d in s.refresh ==> LoggedOut(s, s', s.refresh[d].value))
            && (d !in s.refresh ==> s' == s)
  {
    RunsKeepInv(EMPTY, calls, ttl);
    RevokeRefreshEndsSession(Exec(EMPTY, calls, ttl), d, ttl);
  }

  /** The calls that refresh a chain from its first token to its last. */
  function ChainCalls(ds: seq<Digest>): seq<Call>
    requires ds != []
    decreases |ds|
  {
    if |ds| == 1 then [] else [Refresh(ds[0], ds[1], true)] + ChainCalls(ds[1..])
  }

  /** One refresh of a chain: the next token is live, the last one spent, other spent ones untouched. */
  lemma RefreshAdvancesChain(s: Store, ses: Session, d: Digest, next: Digest, ttl: nat)
    requires 0 < ttl && Inv(s, ttl) && LiveToken(s, d, ses) && Fresh(s, next)
    ensures var s' := RefreshCall(s, d, next, true, ttl);
            && s'.now == s.now && Inv(s', ttl)
            && LiveToken(s', next, ses) && s'.refresh[next].expiry == s.now + ttl
            && s'.reuse == s.reuse[d := Timed(ses, s.now + ttl)]
            && forall e | e != d && e != next && Fresh(s, e) :: Fresh(s', e)
  {
    RefreshKeepsInv(s, d, next, true, ttl);
  }

  /** A chain of distinct tokens: the first redeemable, the others not drawn before. */
  ghost predicate ChainReady(s: Store, ses: Session, ds: seq<Digest>) {
    && ds != [] && LiveToken(s, ds[0], ses)
    && (forall i | 1 <= i < |ds| :: Fresh(s, ds[i]))
    && (forall i, j | 0 <= i < j < |ds| :: ds[i] != ds[j])
  }

  /** Every token of the chain but the last is spent, and so is what was spent before. */
  ghost predicate ChainSpent(s: Store, s': Store, ds: seq<Digest>, t: Timed<Session>) {
    && (forall i | 0 <= i < |ds| - 1 :: Spent(s', ds[i], t))
    && (forall d, u | Spent(s, d, u) && d !in ds :: Spent(s', d, u))
  }

  predicate Spent(s: Store, d: Digest, t: Timed<Session>) {
    d in s.reuse && s.reuse[d] == t
  }

  lemma ChainStays(s: Store, ses: Session, ds: seq<Digest>, ttl: nat)
    requires 0 < ttl && Inv(s, ttl) && |ds| > 1 && ChainReady(s, ses, ds)
    ensures ChainReady(RefreshCall(s, ds[0], ds[1], true, ttl), ses, ds[1..])
  {
    RefreshAdvancesChain(s, ses, ds[0], ds[1], ttl);
    var s1 := RefreshCall(s, ds[0], ds[1], true, ttl);
    forall i | 1 <= i < |ds[1..]| ensures Fresh(s1, ds[1..][i]) {
      assert ds[1..][i] == ds[i + 1];
    }
  }

  lemma ChainStarts(s: Store, ds: seq<Digest>, ttl: nat)
    requires |ds| > 1 && Fresh(s, ds[1])
    ensures var s1 := RefreshCall(s, ds[0], ds[1], true, ttl);
            && (Valid(s1, ChainCalls(ds[1..]), ttl) ==> Valid(s, ChainCalls(ds), ttl))
            && Exec(s, ChainCalls(ds), ttl) == Exec(s1, ChainCalls(ds[1..]), ttl)
  {
    var call := Refresh(ds[0], ds[1], true);
    assert ChainCalls(ds)[0] == call && ChainCalls(ds)[1..] == ChainCalls(ds[1..]);
  }

  /**
    After the chain's refreshes its last token is the session's redeemable one, and every earlier one
    is spent and remembered for a full lifetime.
   */
  ghost predicate ChainDone(s: Store, s': Store, ses: Session, ds: seq<Digest>, ttl: nat)
    requires ds != []
  {
    && LiveToken(s', ds[|ds| - 1], ses) && s'.now == s.now
    && (|ds| > 1 ==> s'.refresh[ds[|ds| - 1]].expiry == s.now + ttl)
    && ChainSpent(s, s', ds, Timed(ses, s.now + ttl))
  }

  /** The rest of a chain, after its first refresh. */
  lemma ChainGrows(s: Store, s1: Store, s': Store, ses: Session, ds: seq<Digest>, ttl: nat)
    requires |ds| > 1 && ds[0] !in ds[1..]
    requires s1.now == s.now && s1.reuse == s.reuse[ds[0] := Timed(ses, s.now + ttl)]
    requires ds[1] in s1.refresh && s1.refresh[ds[1]].expiry == s.now + ttl
    requires ChainDone(s1, s', ses, ds[1..], ttl) && (|ds| == 2 ==> s' == s1)
    ensures ChainDone(s, s', ses, ds, ttl)
  {
    var t := Timed(ses, s.now + ttl);
    assert Spent(s1, ds[0], t);
    forall i | 0 <= i < |ds| - 1 ensures Spent(s', ds[i], t) {
      if i > 0 {
        assert ds[1..][i - 1] == ds[i];
      }
    }
    forall d, u | Spent(s, d, u) && d !in ds ensures Spent(s', d, u) {
      assert d != ds[0] && Spent(s1, d, u);
    }
  }

  lemma {:induction false} ChainOfRefreshes(s: Store, ses: Session, ds: seq<Digest>, ttl: nat)
    requires 0 < ttl && Inv(s, ttl) && ChainReady(s, ses, ds)
    ensures Valid(s, ChainCalls(ds), ttl)
    ensures ChainDone(s, Exec(s, ChainCalls(ds), ttl), ses, ds, ttl)
    decreases |ds|
  {
    if |ds| > 1 {
      var s1 := RefreshCall(s, ds[0], ds[1], true, ttl);
      ChainStarts(s, ds, ttl);
      ChainStays(s, ses, ds, ttl);
      RefreshAdvancesChain(s, ses, ds[0], ds[1], ttl);
      ChainOfRefreshes(s1, ses, ds[1..], ttl);
      ChainGrows(s, s1, Exec(s1, ChainCalls(ds[1..]), ttl), ses, ds, ttl);
    }
  }

  /**
    The thief's case: after any number of refreshes, and any wait shorter than a lifetime, replaying
    any token of the chain but the last kills the last, which was redeemable until then.
   */
  lemma ReplayAfterRefreshes(
    calls: seq<Call>, s: Store, ses: Session, ds: seq<Digest>, i: nat, wait: nat, ttl: nat)
    requires wait < ttl && Valid(EMPTY, calls, ttl) && s == Exec(EMPTY, calls, ttl)
    requires i < |ds| - 1 && ChainReady(s, ses, ds)
    ensures var s' := Elapse(Exec(s, ChainCalls(ds), ttl), wait);
            && LiveToken(s', ds[|ds| - 1], ses)
            && ds[i] in s'.reuse && s'.reuse[ds[i]].value == ses && ReplayKills(s', ds[i], ttl)
            && ds[|ds| - 1] !in RotateRefresh(s', ds[i], ttl).0.refresh
  {
    RunsKeepInv(EMPTY, calls, ttl);
    ChainOfRefreshes(s, ses, ds, ttl);
    var s1 := Exec(s, ChainCalls(ds), ttl);
    assert Spent(s1, ds[i], Timed(ses, s.now + ttl));
    RunsKeepInv(s, ChainCalls(ds), ttl);
    ElapseKeepsIndex(s1, wait, ttl);
    InvMakesReplayKill(Elapse(s1, wait), ds[i], ttl);
    var s2 := RotateRefresh(Elapse(s1, wait), ds[i], ttl).0;
    assert !LiveToken(s2, ds[|ds| - 1], ses);
  }

  /**
    After a full lifetime without a call nothing of the chain is left: its last token is not redeemable
    and the others are not remembered, so that none of them is recognised as a replay.
   */
  lemma ChainExpires(
    calls: seq<Call>, s: Store, ses: Session, ds: seq<Digest>, i: nat, wait: nat, ttl: nat)
    requires 0 < ttl <= wait && Valid(EMPTY, calls, ttl) && s == Exec(EMPTY, calls, ttl)
    requires |ds| > 1 && i < |ds| && ChainReady(s, ses, ds)
    ensures RotateRefresh(Elapse(Exec(s, ChainCalls(ds), ttl), wait), ds[i], ttl).1 == Missing
  {
    RunsKeepInv(EMPTY, calls, ttl);
    ChainOfRefreshes(s, ses, ds, ttl);
    var s1 := Exec(s, ChainCalls(ds), ttl);
    RunsKeepInv(s, ChainCalls(ds), ttl);
    if i < |ds| - 1 {
      assert Spent(s1, ds[i], Timed(ses, s.now + ttl));
    }
    assert ds[i] in s1.refresh ==> ds[i] !in s1.reuse;
  }
}
