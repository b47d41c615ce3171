/** The authentication service and the availability check, over one users table and one Redis. */
module AuthServices {
  import opened Common
  import opened AuthCodes
  import opened EmailFilters
  import opened RateLimiter
  import opened TokenServices
  import FilterStore
  import TokenSessions
  import TokenStore

  type Email = FilterStore.Email

  datatype Account = Account(id: TokenStore.User, password: Option<string>)

  datatype AuthError =
    | BadEmail | WeakPassword | AccountExists | CodeTooSoon | BadCode | NotAuthorized | CallFailed

  /** The two things a code can be for. */
  datatype Purpose = Verify | Reset

  datatype CodeKey = CodeKey(purpose: Purpose, address: Email)

  /** The users table and the code and cooldown keys. */
  datatype Records = Records(users: map<Email, Account>, slots: map<CodeKey, Slot>)

  function SlotOf(slots: map<CodeKey, Slot>, key: CodeKey): Slot {
    if key in slots then slots[key] else NO_CODE
  }

  /** What sending a code needs from outside: the draw, the settings, and which calls go through. */
  datatype Sending = Sending(now: int, code: string, lifetime: nat, up: AuthCodes.Calls)

  /** Which calls to the users table go through. */
  datatype Queries = Queries(lookup: bool, flush: bool, commit: bool)

  const MIN_PASSWORD: nat := 12

  /** The two keys after a code was sent. */
  function SentSlot(sending: Sending): Slot {
    Slot(Some(sending.now + COOLDOWN), Some(Code(sending.code, 0, sending.now + sending.lifetime)))
  }

  /** A new account comes about: a free address, a long enough password, and every call goes through. */
  predicate Registers(db: Records, address: Option<Email>, password: string, sending: Sending, up: Queries) {
    && address.Some? && |password| >= MIN_PASSWORD && address.value !in db.users
    && up.lookup && up.flush && up.commit
    && sending.up.take && sending.up.store && sending.up.publish
    && var cooldown := SlotOf(db.slots, CodeKey(Verify, address.value)).cooldown;
       cooldown.None? || cooldown.value <= sending.now
  }

  /** Signing up with a users table that is always asked first; the filter plays no part. */
  function AskingSignup(
    db: Records, address: Option<Email>, password: string, id: TokenStore.User, sending: Sending, up: Queries)
    : (r: (Records, Option<AuthError>))
    ensures r.1 == Some(BadEmail) <==> address.None?
    ensures r.1 == Some(WeakPassword) <==> address.Some? && |password| < MIN_PASSWORD
    ensures r.1 == Some(AccountExists) <==>
            address.Some? && |password| >= MIN_PASSWORD && up.lookup && address.value in db.users
    ensures r.1.None? <==> Registers(db, address, password, sending, up)
    ensures r.1.None? ==>
              && r.0.users == db.users[address.value := Account(id, Some(password))]
              && r.0.slots == db.slots[CodeKey(Verify, address.value) := SentSlot(sending)]
    ensures r.1.Some? ==> r.0.users == db.users
    ensures forall key | address.None? || key != CodeKey(Verify, address.value) ::
              SlotOf(r.0.slots, key) == SlotOf(db.slots, key)
  {
    if address.None? then (db, Some(BadEmail))
    else if |password| < MIN_PASSWORD then (db, Some(WeakPassword))
    else if !up.lookup then (db, Some(CallFailed))
    else if address.value in db.users then (db, Some(AccountExists))
    else if !up.flush then (db, Some(CallFailed))
    else
      var key := CodeKey(Verify, address.value);
      var (slot, end) := Send(SlotOf(db.slots, key), sending.now, sending.code, sending.lifetime, sending.up);
      match end
      case TooSoon => (db.(slots := db.slots[key := slot]), Some(CodeTooSoon))
      case Failed => (db.(slots := db.slots[key := slot]), Some(CallFailed))
      case Published =>
        if up.commit then
          (Records(db.users[address.value := Account(id, Some(password))], db.slots[key := slot]), None)
        else (db.(slots := db.slots[key := slot]), Some(CallFailed))
  }

  class AuthService {
    const normalize: string -> Option<Email>
    const emails: EmailFilter
    const tokens: TokenService
    var users: map<Email, Account>
    var slots: map<CodeKey, Slot>

    constructor (normalize: string -> Option<Email>, emails: EmailFilter, tokens: TokenService)
      ensures this.normalize == normalize && this.emails == emails && this.tokens == tokens
      ensures Contents() == Records(map[], map[])
    {
      this.normalize, this.emails, this.tokens := normalize, emails, tokens;
      users, slots := map[], map[];
    }

    function Contents(): Records
      reads this
    {
      Records(users, slots)
    }

    /** Whoever finds the filter trusted finds every registered address in it. */
    ghost predicate FilterComplete()
      reads this, emails.filter
    {
      emails.filter.marker.Some? ==> users.Keys <= emails.filter.items
    }

    method SendCode(address: Email, purpose: Purpose, sending: Sending) returns (end: SendEnd)
      modifies this`slots
      ensures var sent := Send(SlotOf(old(slots), CodeKey(purpose, address)), sending.now, sending.code,
                               sending.lifetime, sending.up);
              end == sent.1 && slots == old(slots)[CodeKey(purpose, address) := sent.0]
    {
      var key := CodeKey(purpose, address);
      var slot := SlotOf(slots, key);
      if !sending.up.take {
        slots := slots[key := slot];
        return Failed;
      }
      if slot.cooldown.Some? && sending.now < slot.cooldown.value {
        slots := slots[key := slot];
        return TooSoon;
      }
      slot := slot.(cooldown := Some(sending.now + COOLDOWN));
      end := Failed;
      if sending.up.store {
        slot := slot.(code := Some(Code(sending.code, 0, sending.now + sending.lifetime)));
        if sending.up.publish {
          end := Published;
        }
      }
      if end.Failed? && sending.up.cleanup {
        slot := NO_CODE;
      }
      slots := slots[key := slot];
    }

    /** `budget` calls to Redis go through; the next one raises. */
    method ConsumeCode(address: Email, purpose: Purpose, guess: string, now: int, budget: nat)
      returns (r: Result<bool, AuthError>)
      modifies this`slots
      ensures var used := Try(SlotOf(old(slots), CodeKey(purpose, address)), now, guess, budget);
              && r == (if used.1.Broken? then Err(CallFailed) else Ok(used.1.Right?))
              && slots == old(slots)[CodeKey(purpose, address) := used.0]
      ensures r == Ok(true) <==> Opens(SlotOf(old(slots), CodeKey(purpose, address)), now, guess, budget)
      ensures r == Ok(true) ==> slots[CodeKey(purpose, address)].code.None?
      ensures var slot := SlotOf(old(slots), CodeKey(purpose, address));
              Misses(slot, now, guess, budget) ==>
                r == Ok(false) && slots[CodeKey(purpose, address)] == Missed(slot)
    {
      GuessIsJudged(SlotOf(slots, CodeKey(purpose, address)), now, guess, budget);
      var key := CodeKey(purpose, address);
      var slot := SlotOf(slots, key);
      r := Err(CallFailed);
      if budget >= 1 {
        if slot.code.None? || slot.code.value.expiry <= now {
          r := Ok(false);
        } else if slot.code.value.attempts >= MAX_ATTEMPTS {
          if budget >= 2 {
            slot := slot.(code := None);
            r := Ok(false);
          }
        } else if slot.code.value.text != guess {
          if budget >= 3 {
            var code := slot.code.value;
            var ttl := code.expiry - now;
            slot := slot.(code := Some(Code(code.text, code.attempts + 1, now + Max(ttl, 1))));
            r := Ok(false);
          }
        } else if budget >= 2 {
          slot := slot.(code := None);
          r := Ok(true);
        }
      }
      slots := slots[key := slot];
    }

    /** The filter denies the address, so that the users table is not asked. */
    predicate Denied(email: string, filterUp: bool, collides: bool)
      reads emails.filter
    {
      && emails.enabled && filterUp && !collides && normalize(email).Some?
      && FilterStore.MayMiss(emails.filter.Contents(), normalize(email).value, emails.filter.fingerprint)
    }

    /**
      Whatever the filter answers, right or wrong, signing up comes to what it would with the users
      table always asked, as long as the users table answers. If it does not, a denial spares the
      lookup, and a taken address that the filter denied is reported as a failed call. After a wrong
      miss, and after a registration, the address can no longer be missed if Redis takes either write
      of the filter.
     */
    method Signup(
      email: string, password: string, id: TokenStore.User, filterUp: bool, collides: bool,
      addUp: bool, withdrawUp: bool, sending: Sending, up: Queries)
      returns (error: Option<AuthError>)
      modifies this, emails.filter
      ensures (up.lookup && up.flush) || !old(Denied(email, filterUp, collides)) ==>
                (Contents(), error) == AskingSignup(old(Contents()), normalize(email), password, id, sending, up)
      ensures old(Denied(email, filterUp, collides)) ==>
                (Contents(), error) ==
                if !up.flush && |password| >= MIN_PASSWORD then (old(Contents()), Some(CallFailed))
                else AskingSignup(
                       old(Contents()), normalize(email), password, id, sending, up.(lookup := true))
      ensures error.None? ==> users == old(users)[normalize(email).value := Account(id, Some(password))]
      ensures error.Some? ==> users == old(users)
      ensures error == Some(AccountExists) && emails.enabled && filterUp && !collides && (addUp || withdrawUp) ==>
                !FilterStore.MayMiss(emails.filter.Contents(), normalize(email).value, emails.filter.fingerprint)
      ensures error.None? && emails.enabled && (addUp || withdrawUp) ==>
                forall fp :: !FilterStore.MayMiss(emails.filter.Contents(), normalize(email).value, fp)
      ensures old(FilterComplete()) && emails.enabled && (addUp || withdrawUp) ==> FilterComplete()
    {
      var normal := normalize(email);
      if normal.None? {
        return Some(BadEmail);
      }
      var address := normal.value;
      if |password| < MIN_PASSWORD {
        return Some(WeakPassword);
      }
      var hint := emails.MightExist(address, filterUp, collides);
      if hint {
        if !up.lookup {
          return Some(CallFailed);
        }
        if address in users {
          return Some(AccountExists);
        }
      }
      if !up.flush {
        return Some(CallFailed);
      }
      // The flush: the unique index refuses an address that is already there.
      if address in users {
        emails.Remember(address, addUp, withdrawUp);
        return Some(AccountExists);
      }
      emails.Remember(address, addUp, withdrawUp);
      var end := SendCode(address, Verify, sending);
      match end
      case TooSoon => error := Some(CodeTooSoon);
      case Failed => error := Some(CallFailed);
      case Published =>
        if up.commit {
          users := users[address := Account(id, Some(password))];
          error := None;
        } else {
          error := Some(CallFailed);
        }
    }

    /**
      Only the right code replaces the password; then every session that the revocation reaches ends.
      If the revocation is cut short the caller gets an error all the same: the password is replaced
      by then, and exactly the sessions in `left` live on.
     */
    method ResetPassword(
      email: string, guess: string, password: string, now: int, up: Queries, guessBudget: nat, revokeBudget: nat)
      returns (error: Option<AuthError>, ghost left: set<TokenStore.Family>)
      modifies this, tokens
      ensures var (db, refused) :=
                Resetting(old(Contents()), normalize(email), guess, password, now, up, guessBudget);
              && Contents() == db
              && (refused.Some? ==> error == refused && tokens.Contents() == old(tokens.Contents()))
              && (refused.None? ==>
                    var user := old(users)[normalize(email).value].id;
                    && SessionsEnded(old(tokens.Contents()), tokens.Contents(), user, left, revokeBudget, tokens.ttl)
                    && error == Ended(old(tokens.Contents()), user, revokeBudget))
      ensures var refused := Resetting(old(Contents()), normalize(email), guess, password, now, up, guessBudget).1;
              error.Some? ==>
                && (tokens.Contents() == old(tokens.Contents()) <==>
                    || refused.Some? || revokeBudget < 3
                    || TokenStore.FamiliesOf(old(tokens.Contents()), old(users)[normalize(email).value].id) == {})
                && (users == old(users) <==>
                    refused.Some? || old(users)[normalize(email).value].password == Some(password))
      ensures error.None? <==>
              && ResetAllowed(old(Contents()), normalize(email), guess, password, now, up, guessBudget)
              && revokeBudget >=
                 TokenStore.RevokeCalls(old(tokens.Contents()), old(users)[normalize(email).value].id)
      ensures WrongGuess(old(Contents()), normalize(email), guess, password, now, up, guessBudget) ==>
                && error == Some(BadCode) && users == old(users)
                && tokens.Contents() == old(tokens.Contents())
                && var key := CodeKey(Reset, normalize(email).value);
                   slots == old(slots)[key := Missed(SlotOf(old(slots), key))]
      ensures error.None? && TokenStore.Index(old(tokens.Contents()), tokens.ttl) ==>
                TokenStore.NoTokenOf(tokens.Contents(), old(users)[normalize(email).value].id)
    {
      left := {};
      if |password| < MIN_PASSWORD {
        return Some(WeakPassword), left;
      }
      var normal := normalize(email);
      if normal.None? {
        return Some(BadEmail), left;
      }
      var address := normal.value;
      if !up.lookup {
        return Some(CallFailed), left;
      }
      if address !in users {
        return Some(BadCode), left;
      }
      var used := ConsumeCode(address, Reset, guess, now, guessBudget);
      if used != Ok(true) {
        return Some(if used.Err? then CallFailed else BadCode), left;
      }
      if !up.commit {
        return Some(CallFailed), left;
      }
      var done;
      done, left := ReplacePassword(address, password, revokeBudget);
      error := if done then None else Some(CallFailed);
    }

    /** The new password is committed first; then the sessions of its user end, as far as calls go through. */
    method ReplacePassword(address: Email, password: string, budget: nat)
      returns (done: bool, ghost left: set<TokenStore.Family>)
      requires address in users
      modifies this`users, tokens
      ensures users == old(users)[address := old(users)[address].(password := Some(password))]
      ensures users == old(users) <==> old(users)[address].password == Some(password)
      ensures SessionsEnded(
                old(tokens.Contents()), tokens.Contents(), old(users)[address].id, left, budget, tokens.ttl)
      ensures done <==> Ended(old(tokens.Contents()), old(users)[address].id, budget).None?
      ensures !done ==>
                (tokens.Contents() == old(tokens.Contents()) <==>
                 budget < 3 || TokenStore.FamiliesOf(old(tokens.Contents()), old(users)[address].id) == {})
      ensures done && TokenStore.Index(old(tokens.Contents()), tokens.ttl) ==>
                TokenStore.NoTokenOf(tokens.Contents(), old(users)[address].id)
    {
      ghost var before := tokens.Contents();
      ghost var accounts := users;
      var user := users[address].id;
      users := users[address := users[address].(password := Some(password))];
      assert users[address].password == Some(password);
      assert accounts[address].password == Some(password) ==> users == accounts;
      done, left := tokens.RevokeAll(user, budget);
      RevocationEndsSessions(before, tokens.Contents(), user, left, budget, tokens.ttl);
    }

    /** `account`: the address under which the caller's own user id is registered. */
    method ChangePassword(
      account: Option<Email>, current: string, password: string, up: Queries, revokeBudget: nat)
      returns (error: Option<AuthError>, ghost left: set<TokenStore.Family>)
      requires account.Some? ==> account.value in users
      modifies this, tokens
      ensures slots == old(slots)
      ensures !Changing(old(users), account, current, password, up) ==>
                error.Some? && users == old(users) && tokens.Contents() == old(tokens.Contents())
      ensures Changing(old(users), account, current, password, up) ==>
                var user := old(users)[account.value].id;
                && users == old(users)[account.value := old(users)[account.value].(password := Some(password))]
                && SessionsEnded(old(tokens.Contents()), tokens.Contents(), user, left, revokeBudget, tokens.ttl)
                && error == Ended(old(tokens.Contents()), user, revokeBudget)
      ensures error.Some? && password != current ==>
                (users == old(users) <==> !Changing(old(users), account, current, password, up))
      ensures error.None? && TokenStore.Index(old(tokens.Contents()), tokens.ttl) ==>
                TokenStore.NoTokenOf(tokens.Contents(), old(users)[account.value].id)
    {
      left := {};
      if |password| < MIN_PASSWORD {
        return Some(WeakPassword), left;
      }
      if !up.lookup {
        return Some(CallFailed), left;
      }
      if account.None? || users[account.value].password != Some(current) {
        return Some(NotAuthorized), left;
      }
      if !up.commit {
        return Some(CallFailed), left;
      }
      var done;
      done, left := ReplacePassword(account.value, password, revokeBudget);
      error := if done then None else Some(CallFailed);
    }

    /**
      `known`: whether the user of the rotated session still exists. A refresh that rotated and could
      not issue leaves its session without a redeemable token.
     */
    method Refresh(digest: TokenStore.Digest, next: TokenStore.Digest, lookupUp: bool, known: bool, budget: nat)
      returns (r: Result<TokenStore.Session, AuthError>)
      modifies tokens
      ensures r.Ok? <==> digest in old(tokens.refresh) && lookupUp && known && budget >= 2
      ensures tokens.Contents() ==
              if r.Ok? then TokenSessions.RefreshCall(old(tokens.Contents()), digest, next, true, tokens.ttl)
              else TokenStore.RotateUpTo(old(tokens.Contents()), digest, tokens.ttl, budget)
      ensures r.Ok? ==>
                r.value == old(tokens.refresh)[digest].value && TokenStore.LiveToken(tokens.Contents(), next, r.value)
      ensures r.Err? && digest in old(tokens.refresh) && budget > 0 &&
              TokenSessions.Inv(old(tokens.Contents()), tokens.ttl) ==>
                forall d :: !TokenStore.LiveToken(tokens.Contents(), d, old(tokens.refresh)[digest].value)
    {
      ghost var before := tokens.Contents();
      var rotated := tokens.RotateRefresh(digest, budget);
      if rotated.Ok? && TokenSessions.Inv(before, tokens.ttl) {
        TokenSessions.RotateOpensSession(before, digest, tokens.ttl);
      }
      if rotated.Err? {
        return Err(if rotated.error.RedisFailed? then CallFailed else NotAuthorized);
      }
      if !lookupUp {
        return Err(CallFailed);
      }
      if !known {
        return Err(NotAuthorized);
      }
      var ses := rotated.value;
      var issued := tokens.IssueRefresh(ses.user, Some(ses.family), "", next, budget >= 2);
      if issued.Err? {
        return Err(CallFailed);
      }
      r := Ok(ses);
    }
  }

  /** The guess opens the address's reset code, and nothing else stands against the reset. */
  predicate ResetAllowed(
    db: Records, address: Option<Email>, guess: string, password: string, now: int, up: Queries, budget: nat)
  {
    && |password| >= MIN_PASSWORD && up.lookup && up.commit
    && address.Some? && address.value in db.users
    && Opens(SlotOf(db.slots, CodeKey(Reset, address.value)), now, guess, budget)
  }

  /** The address has a reset code, and this is not it. */
  predicate WrongGuess(
    db: Records, address: Option<Email>, guess: string, password: string, now: int, up: Queries, budget: nat)
  {
    && |password| >= MIN_PASSWORD && up.lookup
    && address.Some? && address.value in db.users
    && Misses(SlotOf(db.slots, CodeKey(Reset, address.value)), now, guess, budget)
  }

  /** The slot with one attempt more. */
  function Missed(s: Slot): Slot
    requires s.code.Some?
  {
    s.(code := Some(Code(s.code.value.text, s.code.value.attempts + 1, s.code.value.expiry)))
  }

  /** What a reset makes of the records; without an error, the new password is committed. */
  function Resetting(
    db: Records, address: Option<Email>, guess: string, password: string, now: int, up: Queries, budget: nat)
    : (r: (Records, Option<AuthError>))
    ensures r.1.None? <==> ResetAllowed(db, address, guess, password, now, up, budget)
    ensures r.1.None? ==>
              && r.0.users == db.users[address.value := db.users[address.value].(password := Some(password))]
              && var key := CodeKey(Reset, address.value);
                 r.0.slots == db.slots[key := SlotOf(db.slots, key).(code := None)]
    ensures r.1.Some? ==> r.0.users == db.users
    ensures WrongGuess(db, address, guess, password, now, up, budget) ==>
              && r.1 == Some(BadCode)
              && var key := CodeKey(Reset, address.value);
                 r.0.slots == db.slots[key := Missed(SlotOf(db.slots, key))]
  {
    if |password| < MIN_PASSWORD then (db, Some(WeakPassword))
    else if address.None? then (db, Some(BadEmail))
    else if !up.lookup then (db, Some(CallFailed))
    else if address.value !in db.users then (db, Some(BadCode))
    else
      var key := CodeKey(Reset, address.value);
      GuessIsJudged(SlotOf(db.slots, key), now, guess, budget);
      var (slot, outcome) := Try(SlotOf(db.slots, key), now, guess, budget);
      var db' := db.(slots := db.slots[key := slot]);
      if outcome.Broken? then (db', Some(CallFailed))
      else if !outcome.Right? then (db', Some(BadCode))
      else if !up.commit then (db', Some(CallFailed))
      else
        (db'.(users := db.users[address.value := db.users[address.value].(password := Some(password))]), None)
  }

  /** The caller's new password is committed. */
  predicate Changing(
    users: map<Email, Account>, account: Option<Email>, current: string, password: string, up: Queries)
    requires account.Some? ==> account.value in users
  {
    && |password| >= MIN_PASSWORD && up.lookup && up.commit
    && account.Some? && users[account.value].password == Some(current)
  }

  /** What the caller is told once the password is committed. */
  function Ended(s: TokenStore.Store, user: TokenStore.User, budget: nat): Option<AuthError> {
    if budget >= TokenStore.RevokeCalls(s, user) then None else Some(CallFailed)
  }

  /** Of the user's tokens exactly those of the families in `left` stay; no one else's change. */
  ghost predicate SessionsEnded(
    s: TokenStore.Store, s': TokenStore.Store, user: TokenStore.User, left: set<TokenStore.Family>, budget: nat,
    ttl: nat)
  {
    && TokenStore.RevokedUpTo(s, s', user, left, budget)
    && (TokenStore.Index(s, ttl) ==>
          && TokenStore.Index(s', ttl)
          && forall d | d in s.refresh ::
               d in s'.refresh <==> (s.refresh[d].value.user == user ==> s.refresh[d].value.family in left))
  }

  lemma RevocationEndsSessions(
    s: TokenStore.Store, s': TokenStore.Store, user: TokenStore.User, left: set<TokenStore.Family>, budget: nat,
    ttl: nat)
    requires TokenStore.RevokedUpTo(s, s', user, left, budget)
    ensures SessionsEnded(s, s', user, left, budget, ttl)
    ensures budget < TokenStore.RevokeCalls(s, user) ==>
              (s' == s <==> budget < 3 || TokenStore.FamiliesOf(s, user) == {})
    ensures budget >= TokenStore.RevokeCalls(s, user) && TokenStore.Index(s, ttl) ==> TokenStore.NoTokenOf(s', user)
  {
    if TokenStore.Index(s, ttl) {
      TokenStore.InterruptedRevocationIsExact(s, s', user, left, budget, ttl);
      TokenStore.RevokingLeavesNone(s, user, ttl);
    }
    if budget < TokenStore.RevokeCalls(s, user) {
      TokenStore.InterruptedAtOnce(s, user, left, budget);
    }
  }

  datatype AvailabilityError = LimiterDown | TooManyRequests | InvalidAddress | LookupFailed

  class EmailAvailabilityService {
    const normalize: string -> Option<Email>
    const emails: EmailFilter
    const limiter: RedisRateLimiter

    constructor (normalize: string -> Option<Email>, emails: EmailFilter, limiter: RedisRateLimiter)
      ensures this.normalize == normalize && this.emails == emails && this.limiter == limiter
    {
      this.normalize, this.emails, this.limiter := normalize, emails, limiter;
    }

    /** Charges the caller first and answers after; without the limiter it does not answer at all. */
    method IsAvailable(
      users: set<Email>, email: string, client: string, limit: nat, window: nat, now: int,
      limiterUp: bool, filterUp: bool, collides: bool, lookupUp: bool)
      returns (r: Result<bool, AvailabilityError>)
      modifies limiter
      ensures r == Err(LimiterDown) <==> !limiterUp
      ensures limiterUp ==>
                && limiter.CounterOf(client) == Some(AfterHit(old(limiter.CounterOf(client)), now, window))
                && (r == Err(TooManyRequests) <==> limiter.CounterOf(client).value.hits > limit)
      ensures !limiterUp ==> limiter.counters == old(limiter.counters)
      ensures r == Err(InvalidAddress) ==> normalize(email).None?
      ensures r == Err(LookupFailed) ==> !lookupUp
      ensures r.Ok? ==>
                && normalize(email).Some?
                && var address := normalize(email).value;
                (r.value <==>
                 || address !in users
                 || (emails.enabled && filterUp && !collides &&
                     FilterStore.MayMiss(emails.filter.Contents(), address, emails.filter.fingerprint)))
      ensures r.Ok? && (emails.filter.marker.Some? ==> users <= emails.filter.items) ==>
                (r.value <==> normalize(email).value !in users)
    {
      if !limiterUp {
        return Err(LimiterDown);
      }
      var allowed := limiter.Hit(client, limit, window, now);
      if !allowed {
        return Err(TooManyRequests);
      }
      var normal := normalize(email);
      if normal.None? {
        return Err(InvalidAddress);
      }
      var hint := emails.MightExist(normal.value, filterUp, collides);
      if hint && !lookupUp {
        return Err(LookupFailed);
      }
      r := Ok(!hint || normal.value !in users);
    }
  }
}
