/** The token service: its methods change the Redis keys as the functions of TokenStore say. */
module TokenServices {
  import opened Common
  import opened TokenStore

  datatype TokenError = Unauthorized | RedisFailed

  class TokenService {
    const ttl: nat
    var now: int
    var refresh: map<Digest, Timed<Session>>
    var reuse: map<Digest, Timed<Session>>
    var families: map<Session, Timed<set<Digest>>>
    var users: map<User, Timed<set<Family>>>

    constructor (ttl: nat)
      ensures this.ttl == ttl && Contents() == Store(0, map[], map[], map[], map[])
    {
      this.ttl := ttl;
      now, refresh, reuse, families, users := 0, map[], map[], map[], map[];
    }

    function Contents(): Store
      reads this
    {
      Store(now, refresh, reuse, families, users)
    }

    /** `digest` and `family` are drawn by the caller's random source; a login has no family yet. */
    method IssueRefresh(user: User, known: Option<Family>, family: Family, digest: Digest, up: bool)
      returns (r: Result<Session, TokenError>)
      modifies this
      ensures r == if up then Ok(Session(user, if known.Some? && known.value != "" then known.value else family))
                   else Err(RedisFailed)
      ensures Contents() == if up then Issue(old(Contents()), r.value, digest, ttl) else old(Contents())
    {
      if !up {
        return Err(RedisFailed);
      }
      var ses := Session(user, if known.Some? && known.value != "" then known.value else family);
      refresh := refresh[digest := Timed(ses, now + ttl)];
      var members := if ses in families then families[ses].value else {};
      families := families[ses := Timed(members + {digest}, now + ttl)];
      var listed := if user in users then users[user].value else {};
      users := users[user := Timed(listed + {ses.family}, now + ttl)];
      r := Ok(ses);
    }

    method RunRotateScript(digest: Digest) returns (r: Rotation)
      modifies this
      ensures (Contents(), r) == Rotate(old(Contents()), digest, ttl)
    {
      if digest in refresh {
        r := Rotated(refresh[digest].value);
        reuse := reuse[digest := Timed(refresh[digest].value, now + ttl)];
        refresh := refresh - {digest};
      } else if digest in reuse {
        r := Reused(reuse[digest].value);
        reuse := reuse - {digest};
      } else {
        r := Missing;
      }
    }

    method RotateRefresh(digest: Digest, budget: nat) returns (r: Result<Session, TokenError>)
      modifies this
      ensures Contents() == RotateUpTo(old(Contents()), digest, ttl, budget)
      ensures budget == 0 ==> r == Err(RedisFailed)
      ensures budget > 0 ==>
                match Rotate(old(Contents()), digest, ttl).1
                case Rotated(ses) => r == Ok(ses)
                case Reused(_) => r == Err(if budget < 3 then RedisFailed else Unauthorized)
                case Missing => r == Err(Unauthorized)
    {
      if budget == 0 {
        return Err(RedisFailed);
      }
      var rotation := RunRotateScript(digest);
      match rotation
      case Missing => r := Err(Unauthorized);
      case Reused(ses) =>
        var ok := RevokeFamily(ses, budget - 1);
        r := Err(if ok then Unauthorized else RedisFailed);
      case Rotated(ses) => r := Ok(ses);
    }

    /** One call looks the token up; the family's revocation takes two more. */
    method RevokeRefresh(digest: Digest, budget: nat) returns (ok: bool)
      modifies this
      ensures ok <==> budget >= if digest in old(refresh) then 3 else 1
      ensures Contents() == if ok then TokenStore.RevokeRefresh(old(Contents()), digest) else old(Contents())
      ensures ok && digest in old(refresh) && Index(old(Contents()), ttl) ==>
                LoggedOut(old(Contents()), Contents(), old(refresh)[digest].value)
      ensures !ok || digest !in old(refresh) ==> Contents() == old(Contents())
    {
      ghost var before := Contents();
      if Index(before, ttl) {
        RevokeRefreshEndsSession(before, digest, ttl);
      }
      if budget == 0 {
        return false;
      }
      ok := true;
      if digest in refresh {
        ok := RevokeFamily(refresh[digest].value, budget - 1);
      }
    }

    /** A read, then one transaction in which the loop queues two deletions for every digest read. */
    method RevokeFamily(ses: Session, budget: nat) returns (ok: bool)
      modifies this
      ensures ok <==> budget >= 2
      ensures Contents() == if ok then TokenStore.RevokeFamily(old(Contents()), ses) else old(Contents())
    {
      if budget < 2 {
        return false;
      }
      var digests := if ses in families then families[ses].value else {};
      var todo := digests;
      while todo != {}
        invariant todo <= digests
        invariant refresh == old(refresh) - (digests - todo)
        invariant reuse == old(reuse) - (digests - todo)
        invariant now == old(now) && families == old(families) && users == old(users)
        decreases todo
      {
        var d :| d in todo;
        refresh := refresh - {d};
        reuse := reuse - {d};
        todo := todo - {d};
      }
      families := families - {ses};
      Unlist(ses);
      ok := true;
    }

    method Unlist(ses: Session)
      modifies this`users
      ensures users == Without(old(users), ses)
    {
      if ses.user in users {
        var rest := users[ses.user].value - {ses.family};
        users := if rest == {} then users - {ses.user}
                 else users[ses.user := Timed(rest, users[ses.user].expiry)];
      }
    }

    /**
      The loop revokes one family after the other, in any order, until a call raises; the user's set
      goes last. Without a failure that comes to `RevokeAll`.
     */
    method RevokeAll(user: User, budget: nat) returns (ok: bool, left: set<Family>)
      modifies this
      ensures ok <==> budget >= RevokeCalls(old(Contents()), user)
      ensures RevokedUpTo(old(Contents()), Contents(), user, left, budget)
    {
      ghost var before := Contents();
      var all := if user in users then users[user].value else {};
      left := all;
      RevokeSomeNone(before, user);
      if budget == 0 {
        assert all - left == {};
        return false, left;
      }
      ghost var calls := 1;
      while left != {}
        invariant left <= all
        invariant calls == 1 + 2 * (|all| - |left|) <= budget
        invariant Contents() == RevokeSome(before, user, all - left)
        decreases left
      {
        var f :| f in left;
        ok := RevokeFamily(Session(user, f), budget - 2 * (|all| - |left|) - 1);
        if !ok {
          ReachedIs(before, user, budget, |all| - |left|);
          return false, left;
        }
        RevokeSomeMore(before, user, all - left, f);
        assert all - (left - {f}) == all - left + {f};
        left := left - {f};
        calls := calls + 2;
      }
      assert all - left == all;
      ReachedIs(before, user, budget, |all|);
      if budget == 2 * |all| + 1 {
        return false, left;
      }
      users := users - {user};
      assert users == before.users - {user};
      ok := true;
    }
  }

  lemma ReachedIs(s: Store, user: User, budget: nat, k: nat)
    requires k <= |FamiliesOf(s, user)| && 2 * k + 1 <= budget
    requires budget < 2 * k + 3 || k == |FamiliesOf(s, user)|
    ensures Reached(s, user, budget) == k
  {}
}
