/**
  The refresh-token keys in Redis and what one service call makes of them. A key that has expired
  is absent, so the maps below hold live keys only; `Elapse` removes what a passage of time expires.
 */
module TokenStore {
  import opened Common

  type User = string

  type Family = string

  type Digest = string

  /** One login and the refreshes that descend from it. */
  datatype Session = Session(user: User, family: Family)

  datatype Timed<T> = Timed(value: T, expiry: int)

  /**
    `refresh`: the redeemable tokens; `reuse`: the spent ones; `families`: every digest of a
    session; `users`: every family of a user.
   */
  datatype Store = Store(
    now: int,
    refresh: map<Digest, Timed<Session>>,
    reuse: map<Digest, Timed<Session>>,
    families: map<Session, Timed<set<Digest>>>,
    users: map<User, Timed<set<Family>>>)

  datatype Rotation = Rotated(session: Session) | Reused(session: Session) | Missing

  function Members(s: Store, ses: Session): set<Digest> {
    if ses in s.families then s.families[ses].value else {}
  }

  function FamiliesOf(s: Store, u: User): set<Family> {
    if u in s.users then s.users[u].value else {}
  }

  function Live<K, V>(m: map<K, Timed<V>>, now: int): map<K, Timed<V>> {
    map k | k in m && now < m[k].expiry :: m[k]
  }

  function Elapse(s: Store, n: nat): Store {
    var now := s.now + n;
    Store(now, Live(s.refresh, now), Live(s.reuse, now), Live(s.families, now), Live(s.users, now))
  }

  /** The issue pipeline: the token, its family set and the user's set, all given a full lifetime. */
  function Issue(s: Store, ses: Session, d: Digest, ttl: nat): Store {
    s.(refresh := s.refresh[d := Timed(ses, s.now + ttl)],
       families := s.families[ses := Timed(Members(s, ses) + {d}, s.now + ttl)],
       users := s.users[ses.user := Timed(FamiliesOf(s, ses.user) + {ses.family}, s.now + ttl)])
  }

  /** The rotation script. */
  function Rotate(s: Store, d: Digest, ttl: nat): (Store, Rotation) {
    if d in s.refresh then
      (s.(refresh := s.refresh - {d}, reuse := s.reuse[d := Timed(s.refresh[d].value, s.now + ttl)]),
       Rotated(s.refresh[d].value))
    else if d in s.reuse then (s.(reuse := s.reuse - {d}), Reused(s.reuse[d].value))
    else (s, Missing)
  }

  /** SREM; Redis drops a set that becomes empty. */
  function Without(users: map<User, Timed<set<Family>>>, ses: Session): map<User, Timed<set<Family>>> {
    if ses.user !in users then users
    else
      var rest := users[ses.user].value - {ses.family};
      if rest == {} then users - {ses.user}
      else users[ses.user := Timed(rest, users[ses.user].expiry)]
  }

  /** The second half of a family revocation: deletes the digests that its first half read. */
  function DeleteFamily(s: Store, ses: Session, digests: set<Digest>): Store {
    s.(refresh := s.refresh - digests, reuse := s.reuse - digests,
       families := s.families - {ses}, users := Without(s.users, ses))
  }

  function RevokeFamily(s: Store, ses: Session): Store {
    DeleteFamily(s, ses, Members(s, ses))
  }

  /** Every digest of the given families of a user. */
  function DigestsOf(s: Store, u: User, fs: set<Family>): set<Digest> {
    set f, d | f in fs && d in Members(s, Session(u, f)) :: d
  }

  function SessionsOf(u: User, fs: set<Family>): set<Session> {
    set f | f in fs :: Session(u, f)
  }

  /** SREM of several families. */
  function WithoutSome(users: map<User, Timed<set<Family>>>, u: User, fs: set<Family>)
    : map<User, Timed<set<Family>>>
  {
    if u !in users || fs == {} then users
    else
      var rest := users[u].value - fs;
      if rest == {} then users - {u} else users[u := Timed(rest, users[u].expiry)]
  }

  /** Some of a user's families go, with every token their sets list. */
  function RevokeSome(s: Store, u: User, fs: set<Family>): Store {
    var digests := DigestsOf(s, u, fs);
    s.(refresh := s.refresh - digests, reuse := s.reuse - digests,
       families := s.families - SessionsOf(u, fs), users := WithoutSome(s.users, u, fs))
  }

  /** The user's sets all go, with every token they list. */
  function RevokeAll(s: Store, u: User): Store {
    RevokeSome(s, u, FamiliesOf(s, u)).(users := s.users - {u})
  }

  /** The Redis calls of a complete `revoke_all`: one read, two for each family, one deletion. */
  function RevokeCalls(s: Store, u: User): nat {
    2 * |FamiliesOf(s, u)| + 2
  }

  /** How many families a `revoke_all` gets done before the call after `budget` raises. */
  function Reached(s: Store, u: User, budget: nat): nat {
    var n := |FamiliesOf(s, u)|;
    if budget == 0 then 0 else if (budget - 1) / 2 < n then (budget - 1) / 2 else n
  }

  /** `revoke_all` with `budget` calls going through; `left` are the families it did not reach. */
  ghost predicate RevokedUpTo(s: Store, s': Store, u: User, left: set<Family>, budget: nat) {
    && left <= FamiliesOf(s, u)
    && |left| == |FamiliesOf(s, u)| - Reached(s, u, budget)
    && s' == if budget >= RevokeCalls(s, u) then RevokeAll(s, u) else RevokeSome(s, u, FamiliesOf(s, u) - left)
  }

  /** `rotate_refresh`: a replayed token costs its whole family. */
  function RotateRefresh(s: Store, d: Digest, ttl: nat): (Store, Rotation) {
    var (s', r) := Rotate(s, d, ttl);
    if r.Reused? then (RevokeFamily(s', r.session), r) else (s', r)
  }

  /** `rotate_refresh` with `budget` calls going through: the script, then a read and a deletion. */
  function RotateUpTo(s: Store, d: Digest, ttl: nat, budget: nat): Store {
    if budget == 0 then s
    else if budget < 3 && Rotate(s, d, ttl).1.Reused? then Rotate(s, d, ttl).0
    else RotateRefresh(s, d, ttl).0
  }

  function RevokeRefresh(s: Store, d: Digest): Store {
    if d in s.refresh then RevokeFamily(s, s.refresh[d].value) else s
  }

  /** A token of the session could be redeemed now. */
  predicate LiveToken(s: Store, d: Digest, ses: Session) {
    d in s.refresh && s.refresh[d].value == ses
  }

  /** The session is gone, tokens, set and listing; everything of other sessions is as it was. */
  ghost predicate LoggedOut(s: Store, s': Store, ses: Session) {
    s'.now == s.now && TokensOut(s, s', ses) && SetsOut(s, s', ses)
  }

  ghost predicate TokensOut(s: Store, s': Store, ses: Session) {
    && (forall d :: !LiveToken(s', d, ses))
    && (forall d | d in s'.refresh :: d in s.refresh && s'.refresh[d] == s.refresh[d])
    && (forall d | d in s'.reuse :: d in s.reuse && s'.reuse[d] == s.reuse[d])
    && (forall d | d in s.refresh && s.refresh[d].value != ses :: d in s'.refresh)
    && (forall d | d in s.reuse && s.reuse[d].value != ses :: d in s'.reuse)
  }

  ghost predicate SetsOut(s: Store, s': Store, ses: Session) {
    && ses !in s'.families
    && FamiliesOf(s', ses.user) == FamiliesOf(s, ses.user) - {ses.family}
    && (forall other | other in s.families && other != ses ::
          other in s'.families && s'.families[other] == s.families[other])
    && (forall u | u != ses.user && u in s.users :: u in s'.users && s'.users[u] == s.users[u])
  }

  ghost predicate NoTokenOf(s: Store, u: User) {
    forall d | d in s.refresh :: s.refresh[d].value.user != u
  }

  /** The digest occurs nowhere. */
  ghost predicate Fresh(s: Store, d: Digest) {
    d !in s.refresh && d !in s.reuse && forall ses | ses in s.families :: d !in s.families[ses].value
  }

  // ---------------------------------------------------------------- the index outlives its tokens

  /**
    Every redeemable token is in its family set and every family set in its user's, neither expiring
    before what it lists; and a family set lists no other session's tokens.
   */
  ghost predicate Index(s: Store, ttl: nat) {
    TokensListed(s) && FamiliesListed(s, ttl) && MembersOwned(s)
  }

  ghost predicate TokensListed(s: Store) {
    forall d | d in s.refresh ::
      && s.refresh[d].value in s.families
      && d in s.families[s.refresh[d].value].value
      && s.now < s.refresh[d].expiry <= s.families[s.refresh[d].value].expiry
  }

  ghost predicate FamiliesListed(s: Store, ttl: nat) {
    forall ses | ses in s.families ::
      && ses.user in s.users
      && ses.family in s.users[ses.user].value
      && s.now < s.families[ses].expiry <= s.users[ses.user].expiry <= s.now + ttl
  }

  ghost predicate MembersOwned(s: Store) {
    forall ses, d | ses in s.families && d in s.families[ses].value ::
      && (d in s.refresh ==> s.refresh[d].value == ses)
      && (d in s.reuse ==> s.reuse[d].value == ses)
  }

  lemma ElapseKeepsIndex(s: Store, n: nat, ttl: nat)
    requires Index(s, ttl)
    ensures Index(Elapse(s, n), ttl)
  {}

  lemma IssueKeepsIndex(s: Store, ses: Session, d: Digest, ttl: nat)
    requires Index(s, ttl) && Fresh(s, d) && 0 < ttl
    ensures Index(Issue(s, ses, d, ttl), ttl)
  {
    IssueKeepsTokens(s, ses, d, ttl);
    IssueKeepsMembers(s, ses, d, ttl);
  }

  lemma IssueKeepsTokens(s: Store, ses: Session, d: Digest, ttl: nat)
    requires Index(s, ttl) && 0 < ttl
    ensures TokensListed(Issue(s, ses, d, ttl))
  {
    var s' := Issue(s, ses, d, ttl);
    forall x | x in s'.refresh
      ensures s'.refresh[x].value in s'.families && x in s'.families[s'.refresh[x].value].value &&
              s'.now < s'.refresh[x].expiry <= s'.families[s'.refresh[x].value].expiry
    {
      if x != d {
        assert s.families[s.refresh[x].value].expiry <= s.now + ttl;
      }
    }
  }

  lemma IssueKeepsMembers(s: Store, ses: Session, d: Digest, ttl: nat)
    requires MembersOwned(s) && Fresh(s, d)
    ensures MembersOwned(Issue(s, ses, d, ttl))
  {
    var s' := Issue(s, ses, d, ttl);
    forall other, x | other in s'.families && x in s'.families[other].value
      ensures (x in s'.refresh ==> s'.refresh[x].value == other) &&
              (x in s'.reuse ==> s'.reuse[x].value == other)
    {
      if x != d {
        assert other in s.families && x in s.families[other].value;
      }
    }
  }

  lemma RotateKeepsIndex(s: Store, d: Digest, ttl: nat)
    requires Index(s, ttl)
    ensures Index(Rotate(s, d, ttl).0, ttl)
  {}

  lemma RevokeFamilyKeepsIndex(s: Store, ses: Session, ttl: nat)
    requires Index(s, ttl)
    ensures Index(RevokeFamily(s, ses), ttl)
  {
    DeleteFamilyKeepsIndex(s, ses, Members(s, ses), ttl);
  }

  /** The deletion may rest on an earlier read, as long as the read saw all that is listed now. */
  lemma DeleteFamilyKeepsIndex(s: Store, ses: Session, digests: set<Digest>, ttl: nat)
    requires Index(s, ttl) && Members(s, ses) <= digests
    requires forall d | d in digests && d in s.refresh :: s.refresh[d].value == ses
    ensures Index(DeleteFamily(s, ses, digests), ttl)
  {
    var s' := DeleteFamily(s, ses, digests);
    forall other | other in s'.families
      ensures other.user in s'.users && other.family in s'.users[other.user].value &&
              s'.families[other].expiry <= s'.users[other.user].expiry <= s'.now + ttl
    {
      assert other != ses && other in s.families;
      assert other.user == ses.user ==> other.family in s.users[ses.user].value - {ses.family};
    }
  }

  /** The index reaches exactly the user's redeemable tokens, and no one else's spent ones. */
  lemma IndexReachesTokens(s: Store, u: User, ttl: nat)
    requires Index(s, ttl)
    ensures forall d | d in s.refresh ::
              d in DigestsOf(s, u, FamiliesOf(s, u)) <==> s.refresh[d].value.user == u
    ensures forall d | d in s.reuse ::
              d in DigestsOf(s, u, FamiliesOf(s, u)) ==> s.reuse[d].value.user == u
  {
    var digests := DigestsOf(s, u, FamiliesOf(s, u));
    forall d | d in s.refresh && s.refresh[d].value.user == u ensures d in digests {
      var ses := s.refresh[d].value;
      assert d in Members(s, Session(u, ses.family));
    }
    forall d | d in digests
      ensures d in s.refresh ==> s.refresh[d].value.user == u
      ensures d in s.reuse ==> s.reuse[d].value.user == u
    {
      var f :| f in FamiliesOf(s, u) && d in Members(s, Session(u, f));
      assert Session(u, f) in s.families;
    }
  }

  lemma IndexReachesFamilies(s: Store, u: User, ttl: nat)
    requires Index(s, ttl)
    ensures forall ses | ses in s.families :: ses in SessionsOf(u, FamiliesOf(s, u)) <==> ses.user == u
  {
    forall ses | ses in s.families && ses.user == u ensures ses in SessionsOf(u, FamiliesOf(s, u)) {
      assert ses == Session(u, ses.family) && ses.family in FamiliesOf(s, u);
    }
  }

  lemma RevokeAllKeepsIndex(s: Store, u: User, ttl: nat)
    requires Index(s, ttl)
    ensures Index(RevokeAll(s, u), ttl)
  {
    IndexReachesTokens(s, u, ttl);
    IndexReachesFamilies(s, u, ttl);
  }

  /** Under the index, a family's digests are its session's tokens and no one else's. */
  lemma DigestsOfSome(s: Store, u: User, fs: set<Family>, ttl: nat)
    requires Index(s, ttl)
    ensures forall d | d in s.refresh ::
              d in DigestsOf(s, u, fs) <==> s.refresh[d].value.user == u && s.refresh[d].value.family in fs
    ensures forall d | d in s.reuse && d in DigestsOf(s, u, fs) ::
              s.reuse[d].value.user == u && s.reuse[d].value.family in fs
  {
    var digests := DigestsOf(s, u, fs);
    forall d | d in s.refresh && s.refresh[d].value.user == u && s.refresh[d].value.family in fs
      ensures d in digests
    {
      assert d in Members(s, Session(u, s.refresh[d].value.family));
    }
    forall d | d in digests
      ensures d in s.refresh ==> s.refresh[d].value.user == u && s.refresh[d].value.family in fs
      ensures d in s.reuse ==> s.reuse[d].value.user == u && s.reuse[d].value.family in fs
    {
      var f :| f in fs && d in Members(s, Session(u, f));
      assert Session(u, f) in s.families;
    }
  }

  lemma RevokeSomeKeepsIndex(s: Store, u: User, fs: set<Family>, ttl: nat)
    requires Index(s, ttl)
    ensures Index(RevokeSome(s, u, fs), ttl)
  {
    DigestsOfSome(s, u, fs, ttl);
    var s' := RevokeSome(s, u, fs);
    forall ses | ses in s'.families
      ensures ses.user in s'.users && ses.family in s'.users[ses.user].value
      ensures s'.families[ses].expiry <= s'.users[ses.user].expiry <= s'.now + ttl
    {
      assert ses in s.families && ses !in SessionsOf(u, fs);
      assert ses.user == u && ses.family in fs ==> Session(u, ses.family) in SessionsOf(u, fs);
      assert ses == Session(ses.user, ses.family);
      assert ses.user == u ==> ses.family in s.users[u].value - fs;
    }
  }

  /**
    A `revoke_all` that some call cuts short: of the user's tokens exactly those of the families not
    reached stay redeemable, no one else's change, and the index stands, so that a later `revoke_all`
    can finish.
   */
  lemma InterruptedRevocationIsExact(s: Store, s': Store, u: User, left: set<Family>, budget: nat, ttl: nat)
    requires Index(s, ttl) && RevokedUpTo(s, s', u, left, budget)
    ensures Index(s', ttl)
    ensures forall d | d in s.refresh ::
              d in s'.refresh <==> (s.refresh[d].value.user == u ==> s.refresh[d].value.family in left)
    ensures forall d | d in s'.refresh :: d in s.refresh && s'.refresh[d] == s.refresh[d]
    ensures forall d | d in s.reuse && s.reuse[d].value.user != u :: d in s'.reuse && s'.reuse[d] == s.reuse[d]
    ensures budget < RevokeCalls(s, u) ==> (s' == s <==> budget < 3 || FamiliesOf(s, u) == {})
  {
    var fs := FamiliesOf(s, u);
    if budget >= RevokeCalls(s, u) {
      RevokeAllKeepsIndex(s, u, ttl);
      IndexReachesTokens(s, u, ttl);
      assert |left| == 0;
    } else {
      RevokeSomeKeepsIndex(s, u, fs - left, ttl);
      DigestsOfSome(s, u, fs - left, ttl);
      InterruptedAtOnce(s, u, left, budget);
    }
  }

  lemma InterruptedAtOnce(s: Store, u: User, left: set<Family>, budget: nat)
    requires left <= FamiliesOf(s, u) && |left| == |FamiliesOf(s, u)| - Reached(s, u, budget)
    ensures RevokeSome(s, u, FamiliesOf(s, u) - left) == s <==> budget < 3 || FamiliesOf(s, u) == {}
  {
    var fs := FamiliesOf(s, u);
    assert |fs - left| == Reached(s, u, budget) by {
      assert fs == left + (fs - left);
    }
    if fs - left == {} {
      var none := fs - left;
      assert DigestsOf(s, u, none) == {} && SessionsOf(u, none) == {};
      assert s.refresh - {} == s.refresh && s.reuse - {} == s.reuse && s.families - {} == s.families;
      assert |none| == 0;
    } else {
      var f :| f in fs - left;
      assert |fs - left| > 0;
      assert u in WithoutSome(s.users, u, fs - left) ==> f !in WithoutSome(s.users, u, fs - left)[u].value;
    }
  }

  lemma RevokeSomeNone(s: Store, user: User)
    ensures RevokeSome(s, user, {}) == s
  {
    assert DigestsOf(s, user, {}) == {} && SessionsOf(user, {}) == {};
    assert s.refresh - {} == s.refresh && s.reuse - {} == s.reuse && s.families - {} == s.families;
  }

  /** Revoking the families one by one comes to revoking them together. */
  lemma RevokeSomeMore(s: Store, user: User, done: set<Family>, f: Family)
    requires f !in done
    ensures RevokeFamily(RevokeSome(s, user, done), Session(user, f)) == RevokeSome(s, user, done + {f})
  {
    var s' := RevokeSome(s, user, done);
    var ses := Session(user, f);
    assert Members(s', ses) == Members(s, ses);
    assert DigestsOf(s, user, done + {f}) == DigestsOf(s, user, done) + Members(s, ses);
    assert SessionsOf(user, done + {f}) == SessionsOf(user, done) + {ses};
    var digests := DigestsOf(s, user, done);
    assert s.refresh - digests - Members(s, ses) == s.refresh - (digests + Members(s, ses));
    assert s.reuse - digests - Members(s, ses) == s.reuse - (digests + Members(s, ses));
    assert s.families - SessionsOf(user, done) - {ses} == s.families - SessionsOf(user, done + {f});
    UnlistingOneMore(s.users, user, done, f);
  }

  lemma UnlistingOneMore(users: map<User, Timed<set<Family>>>, user: User, done: set<Family>, f: Family)
    ensures Without(WithoutSome(users, user, done), Session(user, f)) == WithoutSome(users, user, done + {f})
  {
    if user in users {
      var rest := users[user].value - done;
      assert rest - {f} == users[user].value - (done + {f});
      assert done + {f} != {} && (done == {} ==> rest == users[user].value);
      var expiry := users[user].expiry;
      var once := users[user := Timed(rest, expiry)];
      assert once[user := Timed(rest - {f}, expiry)] == users[user := Timed(rest - {f}, expiry)];
      assert once - {user} == users - {user};
    }
  }

  lemma RevokingLeavesNone(s: Store, u: User, ttl: nat)
    requires Index(s, ttl)
    ensures NoTokenOf(RevokeAll(s, u), u)
  {
    RevokeAllIsComplete(s, u, ttl);
    var s' := RevokeAll(s, u);
    forall d | d in s'.refresh ensures s'.refresh[d].value.user != u {
      assert LiveToken(s', d, s'.refresh[d].value);
    }
  }

  /**
    Revoking a user leaves none of the user's tokens redeemable and touches no key of anyone else;
    this is what a password reset or change relies on.
   */
  lemma RevokeAllIsComplete(s: Store, u: User, ttl: nat)
    requires Index(s, ttl)
    ensures var s' := RevokeAll(s, u);
            && (forall d, ses | LiveToken(s', d, ses) :: ses.user != u)
            && (forall d, ses | LiveToken(s, d, ses) && ses.user != u ::
                  LiveToken(s', d, ses) && s'.refresh[d] == s.refresh[d])
            && (forall d | d in s.reuse && s.reuse[d].value.user != u ::
                  d in s'.reuse && s'.reuse[d] == s.reuse[d])
            && (forall ses | ses in s.families && ses.user != u ::
                  ses in s'.families && s'.families[ses] == s.families[ses])
            && s'.users == s.users - {u}
  {
    IndexReachesTokens(s, u, ttl);
    IndexReachesFamilies(s, u, ttl);
  }

  /**
    Revoking one family leaves none of its tokens redeemable and every token, spent token and family
    set of other sessions as it was.
   */
  lemma RevokeFamilyIsExact(s: Store, ses: Session, ttl: nat)
    requires Index(s, ttl)
    ensures var s' := RevokeFamily(s, ses);
            && s'.families == s.families - {ses}
            && (forall d :: !LiveToken(s', d, ses))
            && (forall d, other | LiveToken(s, d, other) && other != ses ::
                  LiveToken(s', d, other) && s'.refresh[d] == s.refresh[d])
            && (forall d | d in s.reuse && s.reuse[d].value != ses ::
                  d in s'.reuse && s'.reuse[d] == s.reuse[d])
  {}

  /** Presenting a redeemable token at logout ends its session; presenting anything else does nothing. */
  lemma RevokeRefreshEndsSession(s: Store, d: Digest, ttl: nat)
    requires Index(s, ttl)
    ensures d in s.refresh ==> LoggedOut(s, RevokeRefresh(s, d), s.refresh[d].value)
    ensures d !in s.refresh ==> RevokeRefresh(s, d) == s
  {
    if d in s.refresh {
      RevokeFamilyTakesTokens(s, s.refresh[d].value, ttl);
      RevokeFamilyTakesSets(s, s.refresh[d].value);
    }
  }

  lemma RevokeFamilyTakesTokens(s: Store, ses: Session, ttl: nat)
    requires Index(s, ttl)
    ensures TokensOut(s, RevokeFamily(s, ses), ses)
  {
    RevokeFamilyIsExact(s, ses, ttl);
  }

  lemma RevokeFamilyTakesSets(s: Store, ses: Session)
    ensures SetsOut(s, RevokeFamily(s, ses), ses)
  {}

  // ---------------------------------------------------------------- the stored session value

  function SessionValue(ses: Session): string {
    ses.user + ":" + ses.family
  }

  /** Splits at the first colon; the left part must be a user id, the right part not empty. */
  function ParseSession(value: string, isUser: string -> bool): Option<Session> {
    var i := FirstColon(value);
    if i == |value| || i + 1 == |value| || !isUser(value[..i]) then None
    else Some(Session(value[..i], value[i + 1..]))
  }

  function FirstColon(value: string): (i: nat)
    ensures i <= |value| && (i < |value| ==> value[i] == ':')
    ensures forall k | 0 <= k < i :: value[k] != ':'
  {
    if value == "" || value[0] == ':' then 0
    else 1 + FirstColon(value[1..])
  }

  /** A stored value is read as a session exactly if it is that session's value and nothing is ambiguous. */
  lemma ParseIff(value: string, ses: Session, isUser: string -> bool)
    ensures ParseSession(value, isUser) == Some(ses) <==>
            && value == SessionValue(ses) && isUser(ses.user) && ':' !in ses.user && ses.family != ""
  {
    var i := FirstColon(value);
    if i < |value| {
      assert value == value[..i] + ":" + value[i + 1..];
    }
    if value == SessionValue(ses) && ':' !in ses.user {
      assert value[|ses.user|] == ':';
      assert forall k | 0 <= k < |ses.user| :: value[k] == ses.user[k];
      assert value[..|ses.user|] == ses.user && value[|ses.user| + 1..] == ses.family;
    }
  }

  /** A session survives storage exactly when its user id holds no colon and its family is not empty. */
  lemma SessionRoundTrip(ses: Session, isUser: string -> bool)
    ensures ParseSession(SessionValue(ses), isUser) == Some(ses)
            <==> isUser(ses.user) && ':' !in ses.user && ses.family != ""
  {
    ParseIff(SessionValue(ses), ses, isUser);
  }
}
