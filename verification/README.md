# Games backend: a verified model

A Dafny model of the parts of the Games backend that hold real state or parse input, with proofs of
what they promise over all inputs and all runs. `dafny verify dfyconfig.toml` checks everything.

Seven components are modelled, each as value-level functions that say what one call does, classes
whose methods change their fields exactly so, and lemmas about all runs of those functions.

| component | files |
|---|---|
| email filter, users table and rebuild lock | `FilterStore`, `EmailFilter`, `FilterProtocol` |
| refresh-token families | `TokenStore`, `TokenService`, `TokenSessions`, `TokenProtocol` |
| sign-up, passwords, availability, one-time codes | `AuthCodes`, `AuthService` |
| email jobs, retry topology, worker | `EmailJobs`, `EmailProtocol` |
| YAML interpolation, flattening, layering | `YamlScanner`, `YamlTexts`, `YamlLayers`, `YamlTrees` |
| service container | `Container`, `ContainerRuns`, `ServiceProviders` |
| fixed-window limiter | `RateLimiter` |

## How to read it

- In `FilterProtocol`, `TokenProtocol` and `EmailProtocol` an event is one call that Redis,
  PostgreSQL or RabbitMQ executes atomically. Any number of clients interleave. `Valid` says that a
  sequence of events is a run, `Exec` where it leads.
- Parameters named `up`, `...Up`, `...budget` and the fields of `Calls` and `Queries` say which
  outside calls go through; a budget is the number of calls before the one that raises. A call that
  does not go through has no effect. These parameters range over everything.
- Random draws (tokens, family ids, lock tokens, job ids) and the clock are parameters. Draws in a
  run are taken to be new. A digest stands for its token and a stored code for its hash.
- A key of the token store that has expired is absent. Passing time is the event `Elapse`.
- `collides` is the filter's right to answer yes for an address it was never given.
- In the container, `rank` witnesses that registrations are acyclic. A factory asks for its
  dependencies in order and builds a new object.

## Where the promise needs a condition

Each of these is proved with its exact condition.

- **A filter miss is definitive** (email_filter.py:31). It is in runs whose commits are covered:
  the filter holds the address, or the marker is down and no running rebuild has scanned
  (`CommitGuardIsExact`). Uncovered commits arise when a rebuild drops and scans between a
  registration's write and its commit, when a failed write meets a rebuild that has scanned, when
  both writes of `remember` fail and Redis comes back with the marker still up, when the replica that
  registers has its filter disabled (email_filter.py:54-55) while another replica's is trusted, or
  when the insert goes into a full filter, which does not raise. The last three are writes that leave
  the filter `Untouched`. The first needs no
  failure and no unsafe setting (`StraddledCommitIsMissed`). The comment at email_filter.py:69-70
  considers only lookups made during the outage. `OrderlyRunsMissNothing` gives an order of events
  under which all commits are covered.
- **Rebuilds exclude each other** (email_filter_warmer.py:56-58). They do if and only if the rebuild
  time limit does not exceed the lock's lifetime (`ExclusionIff`); so does completeness
  (`CompletenessIff`). The defaults, 30 and 300 seconds, satisfy it; nothing enforces it.
- **The lock is released after a failed rebuild** (email_filter_warmer.py:70-73). It is exactly if
  the rebuild raised and the release goes through. Reaching the time limit cancels the task, and
  cancellation is not an `Exception`: the lock then stays until it expires (`Warm`).
- **A lookup checks marker and entry.** It does so in two calls without a transaction
  (cuckoo.py:94). `SplitLookupIff` says when the answer is wrong, `SplitLookupFails` that it can be.
- **Revoking a user is final** (token_service.py:105-112). A family revocation reads and deletes in
  two round trips, and a token issued in between leaves every set: it outlives that revocation and
  all later ones (`RefreshEscapesRevocation`). A login during the revocation of its user escapes
  likewise (`LoginEscapesSweep`). Without a later login, revoking a user is final if and only if no
  token of the user was cut off so and no refresh of the user is between its own two round trips
  (`RevokeUserIsFinalIff`). Runs in which nothing is issued into a revocation under way cut nothing
  off (`UndisturbedRevocations`). A login counts when it issues: one that checked the old password
  before a reset and issues its token after the revocation (auth_service.py:81-99) is such a login.
- **Revoking a family is final**, by a replay or a logout (token_service.py:92-103). It is if and only
  if none of the family's refreshes is between its two round trips and no token of it was cut off
  (`RevokeFamilyIsFinalIff`, `SplitRevocationIsFinalIff`). No failure and no token issued into the
  revocation is needed: a refresh that rotated before the replay issues after it
  (`RefreshEscapesReplay`).
- **A reset or a change of password ends every session** (auth_service.py:123-142). The password is
  committed first. If the revocation then raises, the caller gets an error, the password is replaced,
  and exactly the sessions of the families not reached live on (`ResetPassword`, `ChangePassword`,
  `InterruptedRevocationIsExact`).
- **A replayed token costs its family** (token_service.py:92-94). The script deletes the record of the
  spent token before the revocation begins, so that a second replay is not recognised. The family ends
  for good if and only if no refresh of it is in flight, and the revocation goes through with no token
  cut off or the family has no redeemable token (`ReplayIsFinalIff`; with calls in sequence,
  `InterruptedReplay`).
- **A refresh goes on or fails.** If it rotated and a later step fails, its session has no redeemable
  token left (`Refresh`).
- **A code allows four guesses** (auth_service.py:188-197). That holds for guesses that get an answer.
  A guess that ends after its first or second call is compared and not counted; the bound holds for
  all comparisons if and only if that cannot happen (`AllGuessesAreBoundedIff`).
- **The limiter admits the limit per window.** Over an interval of a window's length, placed
  anywhere, it is `2 * limit - 1`, and no less (`AdmitsAtMost`, `BoundIsReached`).
- **`$${` gives a literal `${`**, for texts without NUL and no others (`EscapeRoundTrip`).

## Model

| member | source | states |
|---|---|---|
| `FilterProtocol.CompletenessIff` | backend/src/features/auth/availability/email_filter_warmer.py:55-96 | Over all interleavings of registrations, repairs and any number of rebuilding replicas in which commits are covered, the marker never stands over a filter that lacks a registered address, if and only if the rebuild time limit does not exceed the lock's lifetime |
| `FilterProtocol.ExclusionIff` | backend/src/features/auth/availability/email_filter_warmer.py:43-75 | Two replicas are never inside a rebuild at once, in any run, if and only if the time limit does not exceed the lock's lifetime |
| `FilterProtocol.CommitGuardIsExact` | backend/src/features/auth/auth_service.py:59-69 | After any guarded run, committing a row keeps every guarded continuation free of false misses if and only if the filter holds the address, or the marker is down and no running rebuild has its snapshot |
| `FilterProtocol.OrderlyRunsMissNothing` | backend/src/features/auth/auth_service.py:59-69 | By the order of events alone: if each row commits with its entry added and no drop since, or while no rebuild scanned since the last drop or the last withdrawal made outside a scanned rebuild, then every commit of the run is covered and the marker never stands over a filter that lacks a registered address |
| `FilterProtocol.OrderlyCommitsAreCovered` | backend/src/features/auth/auth_service.py:63-69 | Whatever others commit meanwhile, a registration stays covered until its commit if its entry was added and no rebuild both dropped and scanned since, or if its failed write withdrew the marker outside a scanned rebuild and none scanned since |
| `FilterProtocol.StraddledCommitIsMissed` | backend/src/features/auth/availability/email_filter_warmer.py:77-96 | Under every safe setting, a run from the start in which nothing fails and a registered address is missed: a rebuild drops and scans between the registration's write and its commit |
| `FilterProtocol.MissProvesFree` | backend/src/features/auth/availability/email_filter.py:28-51 | In a guarded run a trusted miss proves that no committed row has the address |
| `FilterProtocol.SplitLookupIff` | backend/src/infrastructure/redis/cuckoo.py:88-100 | A lookup is two calls: having found the marker up, it misses an address registered by then if and only if a rebuild dropped the filter in between and had not put the address back |
| `FilterProtocol.SplitLookupFails` | backend/src/infrastructure/redis/cuckoo.py:94-100 | That case arises under every safe setting: a guarded run from the start after which a drop between the two calls makes the lookup miss a registered address |
| `FilterProtocol.SplitLookupFailsAcrossDrop` | backend/src/infrastructure/redis/cuckoo.py:94-100 | Wherever a replica that just took the lock drops between the two calls, the lookup misses every registered address |
| `FilterProtocol.LockOutlivesRebuild` | backend/src/features/auth/availability/email_filter_warmer.py:17-24 | With the time limit at most the lock's lifetime, whoever is inside a rebuild owns the lock until after its deadline, whatever releases, expiries and takeovers happen |
| `FilterProtocol.LossHappens` | backend/src/features/auth/availability/email_filter_warmer.py:84-96 | With a longer time limit, overlapping rebuilds publish a filter that lost an address although every commit was covered |
| `FilterProtocol.UncoveredCommitFails` | backend/src/features/auth/auth_service.py:67-69 | From any state of a guarded run an uncovered commit reports a registered address as free, at once or after events of one running rebuild alone |
| `FilterProtocol.FinishRebuild` | backend/src/features/auth/availability/email_filter_warmer.py:89-96 | A scanned rebuild left alone ends with the marker up and exactly the rest of its snapshot added |
| `FilterProtocol.FailedRebuildFreesLock` | backend/src/features/auth/availability/email_filter_warmer.py:68-73 | A rebuild that fails and releases leaves the filter as it is and the lock free: another replica can start at once |
| `FilterProtocol.RollbackFreesAddress` | backend/src/features/auth/auth_service.py:77-79 | A registration that is rolled back leaves its address free to register again |
| `EmailFilters.RedisCuckooFilter.Reserve` | backend/src/infrastructure/redis/cuckoo.py:56-70 | Creates the key and says whether it was absent; never clears entries |
| `EmailFilters.RedisCuckooFilter.AddMany` | backend/src/infrastructure/redis/cuckoo.py:75-83 | Inserts exactly the batch, or raises and changes nothing; an empty batch makes no call |
| `EmailFilters.RedisCuckooFilter.ContainsIfReady` | backend/src/infrastructure/redis/cuckoo.py:88-100 | No answer unless the marker carries the caller's own parameters; a miss only for an item never inserted |
| `EmailFilters.RedisCuckooFilter.MarkReady` | backend/src/infrastructure/redis/cuckoo.py:105-107 | Publishes the caller's parameters as marker, and nothing else |
| `EmailFilters.RedisCuckooFilter.MarkUnready` | backend/src/infrastructure/redis/cuckoo.py:109-110 | Withdraws the marker and keeps the entries |
| `EmailFilters.RedisCuckooFilter.Drop` | backend/src/infrastructure/redis/cuckoo.py:134-137 | Removes entries and marker together |
| `EmailFilters.EmailFilter.MightExist` | backend/src/features/auth/availability/email_filter.py:41-51 | Denies an address exactly when enabled, reachable, trusted and without an entry or collision; every failure says ask the database |
| `EmailFilters.EmailFilter.Remember` | backend/src/features/auth/availability/email_filter.py:53-63 | If Redis takes the insert or the withdrawal, the address can no longer be missed by anyone; no other miss becomes possible |
| `EmailFilters.EmailFilter.WithdrawTrust` | backend/src/features/auth/availability/email_filter.py:65-71 | Withdraws the marker, or changes nothing when Redis does not answer |
| `EmailFilters.RebuildLock.Acquire` | backend/src/features/auth/availability/email_filter_warmer.py:59-67 | Takes the lock only if no live lease exists |
| `EmailFilters.RebuildLock.Release` | backend/src/features/auth/availability/email_filter_warmer.py:19-24 | Deletes the lock only while it is live and still the releaser's own; another's lease is untouched |
| `EmailFilters.EmailFilterWarmer.Rebuild` | backend/src/features/auth/availability/email_filter_warmer.py:77-99 | Uninterrupted, it publishes exactly the scanned addresses; interrupted at any call after the drop, it leaves no marker |
| `EmailFilters.EmailFilterWarmer.Warm` | backend/src/features/auth/availability/email_filter_warmer.py:43-75 | Nothing is dropped without the lock; a finished rebuild keeps the lock; an interrupted one gives it back if and only if it raised and the release goes through, so one cancelled at its time limit keeps it |
| `TokenProtocol.OneLiveEnd` | backend/src/features/auth/token/token_service.py:62-97 | In every interleaving of logins, two-step refreshes and one- or two-step revocations, a family's redeemable tokens and refreshes in flight number at most one |
| `TokenProtocol.NeverRotatedTwice` | backend/src/features/auth/token/token_service.py:15-28 | After a token was rotated, no later rotation of it succeeds in any continuation |
| `TokenProtocol.ListedIff` | backend/src/features/auth/token/token_service.py:62-77 | After every interleaving, a redeemable token is in its family set, and the family in the user's, exactly until a split revocation of its family, or a sweep of its user, completes after it was issued |
| `TokenProtocol.RevokeUserSurvivors` | backend/src/features/auth/token/token_service.py:105-125 | After every interleaving, revoking a user removes exactly the user's redeemable tokens that were not cut off so, and no one else's |
| `TokenProtocol.RevokeUserIsFinalIff` | backend/src/features/auth/token/token_service.py:105-112 | After every interleaving, revoking a user leaves no redeemable token of the user and none can come back without a login, if and only if no token of the user was cut off and none of the user's refreshes is between rotate and issue |
| `TokenProtocol.RevokeFamilyIsFinalIff` | backend/src/features/auth/token/token_service.py:99-125 | After every interleaving, revoking a family leaves it without a redeemable token for good if and only if none of its refreshes is between rotate and issue and none of its redeemable tokens was cut off |
| `TokenProtocol.ReplayIsFinalIff` | backend/src/features/auth/token/token_service.py:79-97 | After every interleaving, replaying a spent token whose record lives deletes the record, and ends its family for good if and only if no refresh of the family is in flight and either the revocation goes through and no redeemable token was cut off, or there is no redeemable token |
| `TokenProtocol.SplitRevocationIsFinalIff` | backend/src/features/auth/token/token_service.py:114-125 | A family revocation in two round trips is final if and only if, when its deletion is done, no refresh of the family is in flight and every redeemable token of it was drawn before the read and not cut off by then |
| `TokenProtocol.OverIff` | backend/src/features/auth/auth_service.py:144-153 | A family never has a redeemable token again, whatever follows, if and only if it has none and no refresh of it is in flight |
| `TokenProtocol.GivenUpIsOver` | backend/src/features/auth/auth_service.py:144-153 | A refresh that rotated and is given up leaves its family over |
| `TokenProtocol.RevokeAlone` | backend/src/features/auth/token/token_service.py:114-125 | The two round trips of a family revocation, with no call in between, come to revoking the family at once |
| `TokenProtocol.SweepAlone` | backend/src/features/auth/token/token_service.py:105-112 | The round trips of a user's revocation, with no call of anyone else in between, come to revoking the user at once |
| `TokenProtocol.RefreshEscapesReplay` | backend/src/features/auth/auth_service.py:144-153 | A run, undisturbed and with every call going through, in which a token is replayed while its successor is being refreshed: at the end nothing is under way, the family has a redeemable token, and no record of a spent one is left |
| `TokenProtocol.UndisturbedRevocations` | backend/src/features/auth/token/token_service.py:105-125 | If in a run nothing is issued to a family between the read and the deletion of its revocation, nor to a user during a sweep, no token is cut off; then revoking a user leaves no token, is final if and only if no refresh of the user is in flight, and a sweep in any number of steps leaves no token |
| `TokenProtocol.SweepSurvivors` | backend/src/features/auth/token/token_service.py:105-125 | When a sweep of a user has revoked the families it read, a token still redeemable was issued since it began, was cut off before, or lost its listing to another revocation meanwhile |
| `TokenProtocol.RefreshEscapesRevocation` | backend/src/features/auth/token/token_service.py:114-125 | A run of one login, one refresh and one split family revocation after which nothing is under way and a redeemable token is beyond any later revocation of its user |
| `TokenProtocol.LoginEscapesSweep` | backend/src/features/auth/token/token_service.py:105-112 | A login while its user's sessions are revoked is forgotten with the user's set: a later revocation does not find it |
| `TokenProtocol.SplitRevocationSurvivors` | backend/src/features/auth/token/token_service.py:114-125 | When calls come between reading a family set and deleting what was read, the family's surviving tokens are exactly those issued in between and those an earlier split revocation had cut off |
| `TokenProtocol.RunsKeepIndex` | backend/src/features/auth/token/token_service.py:62-77 | In every undisturbed interleaving, split revocations and sweeps included, each redeemable token is in its family set, the family in the user's, and none of these expires before what it lists |
| `TokenStore.RevokeAllIsComplete` | backend/src/features/auth/token/token_service.py:105-125 | Revoking a user removes every redeemable token of the user and no token, spent token or family set of anyone else |
| `TokenStore.RevokeFamilyIsExact` | backend/src/features/auth/token/token_service.py:114-125 | Revoking a family removes all its redeemable tokens and nothing of any other family |
| `TokenStore.RevokeRefreshEndsSession` | backend/src/features/auth/token/token_service.py:99-103 | Presenting a redeemable token at logout takes all tokens, the set and the listing of its session and changes nothing of any other; presenting anything else changes nothing |
| `TokenStore.InterruptedRevocationIsExact` | backend/src/features/auth/token/token_service.py:105-125 | A user's revocation cut short at any call leaves redeemable exactly the user's tokens of the families not reached, changes no one else's, and keeps the index; it changes nothing if and only if no family was reached |
| `TokenStore.IndexReachesTokens` | backend/src/features/auth/token/token_service.py:68-75 | The user's family sets reach exactly the user's redeemable tokens |
| `TokenStore.SessionRoundTrip` | backend/src/features/auth/token/token_service.py:131-143 | A stored session value parses back to its session if and only if the user id is one, holds no colon, and the family is not empty |
| `TokenStore.ParseIff` | backend/src/features/auth/token/token_service.py:135-143 | A stored value is read as a session if and only if it is that session's value, the user id is one without colon, and the family is not empty |
| `TokenSessions.ReplayKillsItsChain` | backend/src/features/auth/token/token_service.py:79-97 | After any run of service calls, replaying a remembered spent token leaves its family no redeemable token, erases the family's traces if it had one, touches no other family, and a second replay finds and changes nothing |
| `TokenSessions.ReplayAfterRefreshes` | backend/src/features/auth/token/token_service.py:79-97 | After any number of refreshes and any wait below a lifetime, replaying any spent token of the chain kills its last token |
| `TokenSessions.ChainExpires` | backend/src/features/auth/token/token_service.py:62-97 | A full lifetime after the last refresh of a chain none of its tokens is redeemable or recognised as a replay |
| `TokenSessions.LogoutEndsSession` | backend/src/features/auth/token/token_service.py:99-103 | After any run of service calls, logging out with a redeemable token ends exactly its session; with any other it changes nothing |
| `TokenSessions.InterruptedReplay` | backend/src/features/auth/token/token_service.py:79-97 | With calls in sequence: right after a replay whose script ran, its family has no redeemable token if and only if the two calls of the revocation went through as well or there was none; either way a second replay finds nothing |
| `TokenSessions.ChainOfRefreshes` | backend/src/features/auth/auth_service.py:144-153 | Any number of refreshes leaves the last token redeemable and every earlier one remembered for a full lifetime |
| `TokenSessions.RunsKeepInv` | backend/src/features/auth/token/token_service.py:62-125 | Every run of whole service calls keeps the index, one redeemable token a family, and spent tokens listed while the family has a live one |
| `TokenServices.TokenService.IssueRefresh` | backend/src/features/auth/token/token_service.py:62-77 | Adds the token and renews its family set and the user's set, for a known family or a newly drawn one; or raises and changes nothing |
| `TokenServices.TokenService.RunRotateScript` | backend/src/features/auth/token/token_service.py:15-28 | The script's three outcomes and the whole resulting store |
| `TokenServices.TokenService.RotateRefresh` | backend/src/features/auth/token/token_service.py:79-97 | Succeeds only for a redeemable token; a replay revokes its family and fails; for every call that may raise, what the store is then |
| `TokenServices.TokenService.RevokeRefresh` | backend/src/features/auth/token/token_service.py:99-103 | If all calls go through, a redeemable token's session loses its tokens, set and listing and no other session changes; a token that is not redeemable, or a call that raises, leaves everything as it was |
| `TokenServices.TokenService.RevokeFamily` | backend/src/features/auth/token/token_service.py:114-125 | The deletion loop comes to removing the family's digests, its set and its entry in the user's set, which vanishes when empty; all of it or, if a call raises, none |
| `TokenServices.TokenService.RevokeAll` | backend/src/features/auth/token/token_service.py:105-112 | The loop over families comes to removing everything the user's sets list, or, cut short, to revoking exactly the families it reached, as many as the calls that went through allow |
| `AuthServices.AuthService.Signup` | backend/src/features/auth/auth_service.py:50-79 | For every users table that answers and every filter answer, right or wrong, the outcome, the accounts and the code keys are those of always asking the users table, and what differs if it does not answer; exactly a success adds the account, with its password; a wrong miss is repaired, and a complete filter stays complete, if Redis takes either write |
| `AuthServices.AskingSignup` | backend/src/features/auth/auth_service.py:50-79 | With the users table always asked: exactly when a registration succeeds, the account and the code it stores, and which error means what |
| `AuthServices.AuthService.SendCode` | backend/src/features/auth/auth_service.py:161-180 | One call on the code and cooldown keys of one purpose and address, whichever of its steps raises |
| `AuthServices.AuthService.ConsumeCode` | backend/src/features/auth/auth_service.py:182-198 | Answers yes exactly if the code stands unexpired, is the one guessed, has guesses left and two calls go through, and then deletes it; an answered wrong guess costs one attempt and nothing else; whichever call raises |
| `AuthServices.AuthService.ResetPassword` | backend/src/features/auth/auth_service.py:123-130 | Succeeds exactly for a long enough password, a registered address, its unexpired code with guesses left, and every call through; a wrong guess changes nothing but the attempts; then the user's tokens of the families reached end, all of them unless the revocation raises; an error leaves the sessions alone if and only if no password was committed or no family reached, and the accounts if and only if none was committed (or it was the old one again) |
| `AuthServices.Resetting` | backend/src/features/auth/auth_service.py:123-129 | The new password is committed if and only if nothing stands against the reset, the code is then gone, and a wrong guess costs one attempt |
| `AuthServices.AuthService.ChangePassword` | backend/src/features/auth/auth_service.py:132-142 | Replaces the password exactly for the current one, a long enough new one and a successful commit; then the user's tokens of the families reached end, all of them unless the revocation raises; an error means the account is unchanged if and only if nothing was committed |
| `AuthServices.AuthService.ReplacePassword` | backend/src/features/auth/auth_service.py:140-142 | Replaces one account's password whatever becomes of the revocation, which ends exactly the sessions of the families it reaches |
| `AuthServices.AuthService.Refresh` | backend/src/features/auth/auth_service.py:144-153 | Succeeds exactly if the token is redeemable, its user exists and all calls go through, and the new token continues the same session; if it rotated and fails, the session has no redeemable token left |
| `AuthServices.EmailAvailabilityService.IsAvailable` | backend/src/features/auth/availability/availability_service.py:32-56 | Charges the caller before answering and never answers without the limiter; the answer is wrong exactly on a trusted miss of a registered address, hence right whenever the filter is complete |
| `AuthCodes.GuessesAreBounded` | backend/src/features/auth/auth_service.py:161-198 | With calls in sequence, one purpose and address sees at most 4 * (ceil(L / 60) + 1) answered comparisons in any L seconds, whatever calls raise |
| `AuthCodes.AllGuessesAreBoundedIff` | backend/src/features/auth/auth_service.py:182-198 | The bound holds for all comparisons, answered or not, of every timeline if and only if no guess may end after its first or its second call |
| `AuthCodes.UnansweredAreUnbounded` | backend/src/features/auth/auth_service.py:188-197 | Any number of guesses that end after one or two calls is compared and not recorded within one second |
| `AuthCodes.GuessBoundIsReached` | backend/src/features/auth/auth_service.py:161-198 | For every L of at least a second some timeline reaches that bound |
| `AuthCodes.PublishedApart` | backend/src/features/auth/auth_service.py:164-165 | Any two published codes are at least 60 seconds apart, whatever fails in between |
| `AuthCodes.OneCode` | backend/src/features/auth/auth_service.py:182-198 | One code gives at most as many answered comparisons as it has guesses left, succeeds at most once, and keeps its text and expiry through wrong guesses |
| `AuthCodes.GuessIsJudged` | backend/src/features/auth/auth_service.py:182-198 | The answer to a guess and the code left behind, by the fields of the stored code and the calls that go through |
| `AuthCodes.CodeOpensIff` | backend/src/features/auth/auth_service.py:182-198 | After any guesses a code opens if and only if it has not expired, was not guessed before, and fewer than four wrong guesses were answered |
| `AuthCodes.PublishedCodeOpens` | backend/src/features/auth/auth_service.py:161-198 | The code that was published is the one that opens, until its lifetime is over or four wrong guesses were answered |
| `AuthCodes.SendIsJudged` | backend/src/features/auth/auth_service.py:161-180 | The outcome of sending a code and the keys left behind, by the cooldown and the calls that go through |
| `AuthCodes.FailedSendCanBeRepeated` | backend/src/features/auth/auth_service.py:171-180 | A failed publication whose clean-up goes through does not start the cooldown |
| `EmailProtocol.NothingLostIffBound` | backend/src/workers/email_worker.py:46-92 | With crashes and redelivery at any point no accepted job is lost; take away one binding and that stays true if and only if nothing publishes to its key |
| `EmailProtocol.MissingBindingLoses` | backend/src/infrastructure/email/jobs.py:56-77 | For each key in use, the run that loses a job when its binding is missing |
| `EmailProtocol.MissingRetryLoses` | backend/src/workers/email_worker.py:66-81 | Without a retry queue's binding, a job published without attempts is lost once its earlier retries have failed |
| `EmailProtocol.CanStillBeSent` | backend/src/workers/email_worker.py:46-92 | No job gets stuck: wherever it waits or is held outside the dead queue, the broker can bring it back and a worker can settle it as sent |
| `EmailProtocol.RetryKeysAreBound` | backend/src/workers/email_worker.py:67-81 | Every key the worker publishes to is bound to a declared queue |
| `EmailProtocol.HandleIsARun` | backend/src/workers/email_worker.py:46-92 | The worker's call is a run of the single broker calls of the crash model, whichever of them raise; it mails exactly an accepted, readable, unexpired job, and refuses exactly a refused one |
| `EmailProtocol.HandleConserves` | backend/src/workers/email_worker.py:46-92 | Without acknowledgement failures a delivered message ends in exactly one place: no id's number of messages changes |
| `EmailProtocol.JobsAreConservedAndBounded` | backend/src/workers/email_worker.py:57-92 | Without crashes each id has at all times as many messages as were accepted, and a job accepted with a attempts is delivered at most max(1, 5 - a) times |
| `EmailProtocol.HandleKeepsBound` | backend/src/workers/email_worker.py:68-81 | Handling leaves the message no further delivery and the retry published for it fewer than the message had before it was received; for no message, nor for the retry compared with its original, do deliveries so far and to come grow |
| `EmailJobs.Broker.DeclareTopology` | backend/src/infrastructure/email/jobs.py:50-78 | Declares the bindings and dead-letter routes; declaring again changes nothing |
| `EmailJobs.DeclaringIsIdempotent` | backend/src/infrastructure/email/jobs.py:50-78 | On an empty broker, a declared one, or one declared half-way, the result is the same topology |
| `EmailJobs.HandleHasOutcome` | backend/src/workers/email_worker.py:46-92 | On the declared topology: a sent message is settled as sent, a refused or unreadable one is in the dead queue, an expired one is settled as expired, and one that could not be sent is replaced by the same job one attempt later in that attempt's retry queue, or after the last in the dead queue; no other message moves; and what each raising call leaves |
| `EmailJobs.JobRoundTrip` | backend/src/infrastructure/email/jobs.py:27-47 | A body decodes to the job it was made of if and only if the job is well formed |
| `EmailJobs.EmailPublisher.Publish` | backend/src/infrastructure/email/jobs.py:81-102 | Without a connection it raises; otherwise it declares the topology first, and a job that was published waits in the primary queue, on any broker; on one declared before, wholly or in part, the topology is then the declared one |
| `EmailJobs.Broker.Publish` | backend/src/infrastructure/email/jobs.py:93-100 | The broker's side: a published message waits in the queue its key is bound to, or is gone if there is none |
| `EmailJobs.Broker.Ack` | backend/src/workers/email_worker.py:57-59 | Settles the message, or raises and leaves it held |
| `EmailJobs.Broker.Reject` | backend/src/workers/email_worker.py:53-55 | Gives the message up along the primary queue's dead-letter route, or raises |
| `EmailJobs.Broker.HandleMessage` | backend/src/workers/email_worker.py:46-92 | Where every message is after the worker's call, for every SMTP outcome and every failing broker call, with the outcome of the declared topology; it raises exactly if the message stays held |
| `YamlScanner.InterpolateMeans` | backend/src/application/environment/yaml_source.py:37-71 | Interpolation fails exactly when an embedded placeholder has neither value nor fallback, leaves a bare one unresolved exactly then, and otherwise replaces each placeholder once, its value as it is, with nothing scanned again |
| `YamlTexts.InterpolateWritten` | backend/src/application/environment/yaml_source.py:37-71 | A scalar written as literal texts, each opening escaped, and placeholders reads as those texts with the value or fallback of each placeholder in its place; without either it fails naming the first such variable, or stays unresolved if it is that placeholder alone and may be absent |
| `YamlTexts.MarkIff` | backend/src/application/environment/yaml_source.py:53 | Marking replaces exactly the occurrences of the escape, wherever they stand in any text |
| `YamlTexts.ScanIff` | backend/src/application/environment/yaml_source.py:14 | Scanning gives the one reading of any text, from left to right, into placeholders wherever one starts and single characters elsewhere |
| `YamlScanner.EscapeRoundTrip` | backend/src/application/environment/yaml_source.py:15-17 | In every environment the escaped form of a text interpolates back to the text if and only if the text holds no NUL |
| `YamlScanner.ScanRoundTrip` | backend/src/application/environment/yaml_source.py:14 | The literals and placeholders of any text concatenate back to it |
| `YamlScanner.MatchIffGrammar` | backend/src/application/environment/yaml_source.py:14 | The matcher accepts at a position exactly what the placeholder grammar spells there, whole |
| `YamlScanner.WholeAgreesWithEmbedded` | backend/src/application/environment/yaml_source.py:55-71 | The whole-value and the embedded path agree whenever either yields a value |
| `YamlScanner.InterpolateReadsOnly` | backend/src/application/environment/yaml_source.py:28-34 | The result depends on the environment only through the variables named |
| `YamlScanner.SubstituteFills` | backend/src/application/environment/yaml_source.py:62-71 | Substitution succeeds exactly if every placeholder is supplied, and then equals the piecewise reading |
| `YamlLayers.FlattenIff` | backend/src/application/environment/yaml_source.py:90-116 | Flattening a tree of any depth fails exactly when two leaf positions join to one name, and names such a pair; otherwise the table is the leaves, each once, under joined name and dotted path |
| `YamlLayers.LeafTable.Flatten` | backend/src/application/environment/yaml_source.py:90-116 | The recursive dictionary filling equals adding the leaves in file order until a name is taken twice |
| `YamlTrees.LeavesIff` | backend/src/application/environment/yaml_source.py:90-116 | A leaf is found under a path if and only if the path's keys lead to it |
| `YamlTrees.LeavesInOrder` | backend/src/application/environment/yaml_source.py:103-116 | Leaves come in file order |
| `YamlTrees.LeavesCounted` | backend/src/application/environment/yaml_source.py:103-116 | There are as many leaves as the tree has |
| `YamlTrees.JoinConcat` | backend/src/application/environment/yaml_source.py:109-110 | Joined names have one separator between neighbouring keys |
| `YamlTrees.ExpandWritten` | backend/src/application/environment/yaml_source.py:74-78 | A text leaf reads as written; one placeholder alone may be absent |
| `YamlTrees.ExpandSequence` | backend/src/application/environment/yaml_source.py:78-86 | A sequence reads element by element, in order; no element may be absent, and the first that fails names its variable |
| `YamlLayers.LoadLayer` | backend/src/application/environment/yaml_source.py:119-161 | Succeeds exactly on layers with distinct, known names, no stage key and no unsupplied variable; then each field has what its leaf resolves to; otherwise the error is that of the collision, the first unusable leaf, or all unknown names |
| `YamlTrees.SuppliedIff` | backend/src/application/environment/yaml_source.py:142-158 | A layer supplies a value to a field if and only if some keys that spell the field lead to a leaf that resolves to it |
| `YamlTrees.UnknownPathsAre` | backend/src/application/environment/yaml_source.py:150-160 | The unknown paths are the dotted paths of the leaves that name no setting, in file order |
| `YamlLayers.ResolveLeaves` | backend/src/application/environment/yaml_source.py:142-161 | The loop over the flattened table: exact success, exact data, exact error |
| `YamlLayers.YamlSettingsSource.Load` | backend/src/application/environment/yaml_source.py:167-178 | For any number of layers: succeeds exactly if all are valid, and gives each field the value of the last layer that resolves it, or none |
| `YamlTrees.LastSuppliedIff` | backend/src/application/environment/yaml_source.py:175-178 | A field's value is that of the one layer that supplies it with no layer above supplying any |
| `YamlLayers.UnresolvedNeverHides` | backend/src/application/environment/yaml_source.py:154-157 | A bare placeholder that nothing supplies leaves the field to the layers below, however it is nested |
| `ContainerRuns.ResolutionIff` | backend/src/application/ioc/container.py:74-80 | At any point of any run, resolution succeeds exactly if all that would be asked for is registered and no scoped service is reachable from the root, or, from an open scope, behind a singleton or transient one |
| `ContainerRuns.NoCaptiveScoped` | backend/src/application/ioc/container.py:91-119 | No singleton or transient object ever holds a scoped one, at any depth |
| `ContainerRuns.ObjectsHoldWhatTheyAsked` | backend/src/application/ioc/container.py:91-119 | After every run, an object holds, in order, one object of each service its factory asks for and nothing else: the one singleton, the object cached by its own scope, or a transient |
| `ContainerRuns.TransientsAreNew` | backend/src/application/ioc/container.py:97-98 | Each request for a transient service builds an object that was not there before |
| `ContainerRuns.RootErrors` | backend/src/application/ioc/container.py:74-89 | An error of the root names a service that is not registered, or a scoped one that was asked of it |
| `ContainerRuns.ScopeErrors` | backend/src/application/ioc/container.py:113-119 | A scope reports that it is closed exactly if it is; otherwise errors are as at the root |
| `ContainerRuns.OncePerScope` | backend/src/application/ioc/container.py:99-102 | No scope ever gets two objects of one service, over any run |
| `ContainerRuns.OncePerContainer` | backend/src/application/ioc/container.py:74-102 | No run builds two objects of one singleton, however many scopes ask for it |
| `ContainerRuns.DisposalOrder` | backend/src/application/ioc/container.py:127-133 | A scope disposes only its own objects, each at most once and each before anything it holds; closing an open scope without failures disposes them all |
| `ContainerRuns.AskingTwiceIsAskingOnce` | backend/src/application/ioc/container.py:99-119 | Asking an open scope again for a scoped service or a singleton gives the same object and builds nothing |
| `ContainerRuns.AskingRootTwice` | backend/src/application/ioc/container.py:74-102 | So does asking the root again for a singleton |
| `ContainerRuns.DisposalsAt` | backend/src/application/ioc/container.py:131-132 | Disposal runs backwards through the cache, and through all of it if nothing raises |
| `ContainerRuns.DisposalsStop` | backend/src/application/ioc/container.py:131-132 | If a disposal raises, it is the last one |
| `ContainerRuns.ClosingCloses` | backend/src/application/ioc/container.py:127-133 | Closing closes, whether or not a disposal raises; the cache is cleared only if none does |
| `ContainerRuns.ClosedForGood` | backend/src/application/ioc/container.py:113-133 | A closed scope serves nothing and disposes nothing more, whatever is called later |
| `Container.ScopeGetKeeps` | backend/src/application/ioc/container.py:113-119 | Resolution in a scope keeps every cache in dependency order, changes no other entry, and gives an object of the service asked for, owned by the scope if scoped |
| `Container.RootGetKeeps` | backend/src/application/ioc/container.py:74-80 | Resolution at the root keeps every cache in dependency order and builds no scoped object |
| `ServiceProviders.ServiceProvider.Get` | backend/src/application/ioc/container.py:74-102 | The provider's recursion over its dictionary follows the resolution functions |
| `ServiceProviders.ServiceScope.Get` | backend/src/application/ioc/container.py:113-119 | The scope's recursion over both dictionaries follows the resolution functions |
| `ServiceProviders.ServiceScope.Close` | backend/src/application/ioc/container.py:127-133 | Closes once; disposes in reverse insertion order until one raises, and clears the cache only if none does |
| `ServiceProviders.DisposeAll` | backend/src/application/ioc/container.py:131-132 | The disposal loop gives exactly the reverse order up to the first failure |
| `RateLimiter.AdmitsAtMost` | backend/src/infrastructure/redis/rate_limiter.py:22-27 | No half-open interval of a window's length admits more than 2 * limit - 1 hits on a key, on any timeline |
| `RateLimiter.BoundIsReached` | backend/src/infrastructure/redis/rate_limiter.py:22-27 | For every limit some timeline reaches 2 * limit - 1, so the bound is exact |
| `RateLimiter.WindowAdmitsAtMost` | backend/src/infrastructure/redis/rate_limiter.py:7-13 | A window, from the hit that opened it to its expiry, admits exactly the smaller of its hits and the limit |
| `RateLimiter.CounterAlwaysExpires` | backend/src/infrastructure/redis/rate_limiter.py:5-13 | The counter always has an expiry, later than its last hit and no more than a window later |
| `RateLimiter.ExpiryUnblocks` | backend/src/infrastructure/redis/rate_limiter.py:22-27 | Denied hits do not move the expiry, and a hit from then on is admitted |
| `RateLimiter.SilenceUnblocks` | backend/src/infrastructure/redis/rate_limiter.py:22-27 | After a window without hits the next one is admitted if the limit is at least one |
| `RateLimiter.RedisRateLimiter.Hit` | backend/src/infrastructure/redis/rate_limiter.py:22-27 | Counts against its own key only and admits up to the limit |

## Left out

- HTTP controllers, DTOs, cookies, middlewares, health routes, application wiring and the frontend: plumbing and user interface.
- Hashing, JWT, Argon2, JWKS and OAuth claim checks: a stored code or password is compared as text, and a digest stands for its token.
- OAuth login: its first-login registration takes the same three filter steps as sign-up (flush, remember, commit) and is covered by `FilterProtocol`; provider checks and identities are not modelled.
- The cuckoo filter's internals: fingerprints, eviction and capacity. A batch insert either adds its items or raises; an insert into a full filter, which answers without raising, appears only as the write outcome `Untouched` of `remember`. `forget`, `inserted_count`, `is_ready` and `key_exists` play no part in the protocol.
- A rollback of the users table that raises itself.
- Loss of Redis data by a snapshot restore or fail-over.
- A cancelled or failed Redis call that the server executes all the same.
- Email normalisation: one partial function shared by all paths; the protocol speaks of canonical addresses only.
- Interleaved `_send_code` and `_consume_code` calls: they read and write in separate round trips; the bounds on guesses are for calls in sequence.
- AuthCodes.OneCode: the expiry is exact on a clock of whole seconds; Redis rounds a remaining lifetime to seconds, so on a finer clock a wrong guess can move it by less than a second.
- Access tokens: they are stateless, so revocation does not touch them.
- Order within a queue, the length of a retry delay, and prefetch: the model says where a message is, not when it moves on.
- Messages with an empty job id from other producers: a retry of one would be given a new id. The publisher always sets one.
- Decoding errors of a job body other than the three exception types the worker catches.
- YAML parsing, reading files, dotenv, field validation, and the choice of the stage: the model starts from parsed trees.
- The order in which unknown settings are reported: the error lists them in file order, the code sorts them.
- The container's lock: calls are atomic. Factories that return an object they were given, or ask for different services from call to call.
- `RedisRateLimiter._count`: the script's reply is a number.
- The login, verification and forgotten-password methods: they only compose calls that are modelled.
