# Protocols of the FastAPI service template, modelled and proved in Dafny

The template keeps its promises with a handful of small protocols over Redis and a SQL database:
money operations behind an Idempotency-Key, refresh sessions with rotation, a transactional outbox with
its relay and its scheduler lock, a rate limiter, a cached user detail, optimistic row versions, an
in-memory broker and a retrying HTTP client. This project states what those protocols guarantee and
proves it for every run.

## How the model is built

- Redis is a clocked map with expiries and the database is committed tables plus row locks. A protocol
  whose calls interleave is a machine: its state, a datatype of events (one per awaited command, plus
  crashes, failures and the passing of time) and a total `Next`; an event that is not enabled leaves the
  state as it is, so every list of events is a run. Invariants are proved kept by every event and so by
  every run.
- The source's classes are classes here, with the same methods, fields changed in place and the same loops.
  Their `ensures` clauses give the whole new state as a function of the old one, and lemmas named
  `…Alone`, `WholeCall…`, `WholeStay` or `EndpointIsMachineCall` show that the machine's call, when nothing
  interferes, does exactly what the method does.
- Where a promise does not hold in general, a lemma named `…Exactly` proves it equivalent to a condition: on
  what the environment may do (a `Policy`), on the state a call meets, or on the steps of the run. Concrete
  runs show that the failing half happens.

| component | files |
|---|---|
| idempotent money operations, ledger | `Operations`, `Money`, `MoneySafety`, `MoneyTheorems`, `MoneySteps`, `MoneyHistory`, `MoneySolo`, `MoneyKeys`, `MoneyRules`, `Idempotency` |
| tables, unit of work, services, cache agreement | `Tables`, `UnitOfWork`, `Services`, `ServiceRules`, `CacheAgreement`, `ServiceClasses` |
| the cached detail under interleaving | `Staleness`, `Invalidation` |
| optimistic versions | `Versions` |
| sessions and refresh rotation | `Sessions`, `SessionIndex`, `SessionLives`, `SessionRuns`, `SessionRaces`, `SessionAtomicity`, `SessionStore`, `AuthService` |
| outbox, relay, scheduler lock, and the three composed | `Outbox`, `OutboxTable`, `OutboxCopies`, `OutboxRelay`, `OutboxDrain`, `Scheduler`, `RelayJobs`, `RelayFiring` |
| rate limiter | `RateLimit`, `RateLimitBound` |
| in-memory broker | `Broker` |
| HTTP client and token login | `HttpClient`, `TokenLogin` |

## Where the code and its comments differ

The model follows the code. Each difference is proved.

- "At most one effect per key" (`app/idempotency/runner.py:4-15`) fails when `produce` raises after its
  commit (`app/services/account.py:99`, a failing cache delete) or a key expires; it holds in every run
  exactly when neither can happen (`MoneySolo.AtMostOnceExactly`, `Idempotency.LateFailureFreesTheKey`).
- `app/idempotency/store.py:53` says the value read after a lost SET NX is never absent. A release or an
  expiry can fall in between, exactly while keys may expire or a call under the key is before its release
  (`MoneyKeys.GetFindsNothingExactly`); the parse then raises and the request fails without an effect.
- `app/ratelimit/limiter.py:14-15` speaks of bursts up to about twice the limit; the exact maximum within
  one window's length is 2 * limit - 1, and it is exact for every length (`RateLimitBound.BoundIsReached`).
  The remainder reported with a blocked call can miss the least one, because -1 doubles as "nothing yet"
  (`RateLimit.ReportedRemainderExactly`).
- The single-instance lock (`app/scheduler/scheduler.py:11-12`) and the relay's "no double publication"
  (`app/outbox/relay.py:15`) hold exactly when no stay in the job lasts as long as the lock's time to live.
- "A failing job does not bring down the scheduler" (`app/scheduler/scheduler.py:10`) holds for the job's own
  exceptions. A lock command that raises is outside the `except` and ends the job's loop until a restart
  (`Scheduler.GoesOnExactly`).
- An exception the client sees does not mean that nothing was committed: storing the response
  (`app/idempotency/runner.py:56`) is outside the `try`, and the key then stays in progress. Which failures
  hide a commit is exact (`MoneyHistory.HiddenCommitExactly`).
- An update invalidates the cached user (`app/services/user.py:151`) only if the reload before it does not
  raise. When a call leaves a stale entry is exact (`CacheAgreement.ServeAgreesExactly`).
- A revoked session never validates again, but `exists` (`app/security/session_store.py:101-102`) may be
  true again: exactly while a rotation that read the session has yet to write it
  (`SessionRaces.ExistsAgainExactly`).
- A reused refresh token (`app/services/auth.py:9`) is detected for whole calls. Interleaved, it is accepted
  again exactly until the first rotation write (`SessionRaces.AcceptedAgainExactly`).
- "Log out everywhere" is exact when store methods are atomic, however the service calls that send them
  interleave. Command by command, the index stays complete exactly while no `revoke_all` writes from a list
  that lacks a live session of the user (`SessionAtomicity.CompleteExactly`), which takes a login since the
  list was read (`SessionAtomicity.MissedLoggedInSince`).
- An empty access token from the login endpoint is kept and sent but never dropped on 401
  (`TokenLogin.RecoversExactly`).

## Model

| member | source | states |
|---|---|---|
| MoneySafety.NextKeeps | app/idempotency/runner.py:41-57 | Every event of the money machine, the raising of any Redis or database command included, keeps the invariant: a call is in a transaction on an existing row exactly when it holds that row's lock, what it read is still committed, all responses in sight are committed ones, and each commit made or still possible under a key is paid for by the key's cell or a fault of the key |
| MoneySafety.SaveRaisesKeeps | app/idempotency/runner.py:56 | Storing the response may raise after the commit, with or without having stored it: the invariant holds with the key kept in progress or holding the response |
| MoneySafety.GrowthKeeps | app/services/account.py:55 | Users and categories that come while requests run leave the ledger a legal serial history |
| MoneySafety.CommitKeeps | app/services/account.py:81-100 | The commit, acknowledged or with its reply lost, keeps that invariant: the ledger grows by one legal serial step and no other call's row or response is invalidated |
| MoneySafety.ExpireKeeps | app/idempotency/store.py:46 | The expiry of a marker or saved response keeps the invariant, at the price of one counted fault |
| MoneySafety.RunKeeps | app/idempotency/runner.py:41-57 | Every run of interleaved requests keeps the invariant |
| MoneyTheorems.EffectsBoundedByFaults | app/idempotency/runner.py:51-56 | In every run and under every policy the commits under a key number at most one more than the times that key was freed although committed, or expired |
| MoneyTheorems.AnswerHasEffect | app/idempotency/runner.py:48-57 | Every response a client got, fresh or replayed, is that of a transaction committed under the request's own key |
| MoneyTheorems.AtMostOnceAndSameAnswer | app/idempotency/runner.py:44-57 | Under every policy, for each key that was never freed after a commit and never expired: at most one commit in any interleaving with crashes and failures anywhere, and all successes for the key are the same response |
| MoneyTheorems.NoFaults | app/idempotency/runner.py:51-55 | When produce never raises late and keys never expire, that is every key |
| MoneyTheorems.OutcomeTellsCommit | app/idempotency/runner.py:46-57 | What an outcome tells its client, under every policy: a success, a response that could not be stored and a late exception mean a commit; a conflict, a replay and any other failure mean none |
| MoneyHistory.CommittedExactly | app/services/account.py:96 | A call has committed if and only if some event of the run was a commit of it that took, answered or not |
| MoneyHistory.HiddenCommitExactly | app/idempotency/runner.py:51-56 | A client gets an exception although its call committed if and only if, after the commit, the commit itself, the drop of the cached user or the storing of the response raised in the run |
| MoneyHistory.RefusalIsSerial | app/services/account.py:84-112 | A refused operation has its place too: at some instant between its submission and its end, the serial run of the commits so far refuses it |
| MoneyRules.PerformMeans | app/services/account.py:83-113 | Run alone, an operation is refused if and only if the user, the account, a category asked for or enough money is not there; otherwise it leaves the row with exactly its amount added or taken |
| MoneyRules.WithdrawExactly | app/services/account.py:106-118 | A withdrawal is refused if and only if the account is missing or holds less than the amount; otherwise, once committed, exactly the amount leaves that account, is booked as a withdrawal, and nothing else changes |
| MoneyRules.DepositExactly | app/services/account.py:83-97 | A deposit is refused if and only if the account or a category asked for is missing; otherwise, once committed, exactly the amount enters that account, is booked with its categories, and nothing else changes |
| MoneyRules.OpenExactly | app/services/account.py:54-59 | An account is opened if and only if the user exists, empty and in that user's name, and nothing is booked |
| MoneyRules.RefusalHasCause | app/services/account.py:84-112 | In every interleaving, whenever the rule refused a call there was an instant during the call at which the money, the account, a category or the user was not there |
| MoneyRules.AddedIsNoCause | app/services/account.py:86-91 | A category or user added while calls are under way is no cause of refusal from then on, and the other causes stay |
| MoneyRules.SuccessDoesItsJob | app/services/account.py:86-121 | In every interleaving, every success answers the row its own operation leaves on what the commits before it had left |
| MoneyRules.AmountIsChange | app/services/account.py:86-116 | What an operation books is what it adds to the balance |
| MoneyKeys.GetFindsNothingExactly | app/idempotency/store.py:50-54 | A call that lost SET NX can find nothing at its GET if and only if the key is free by now, keys may expire, or a call under the key is still before its release |
| MoneyKeys.KeyVanishesExactly | app/idempotency/runner.py:53-55 | A key that is taken can be free again if and only if keys may expire or a call under it is still before its release |
| MoneyKeys.ReleaseSlipsIn | app/idempotency/store.py:46-54 | And it happens without any expiry: another request's release between the two commands makes the parse raise |
| MoneyTheorems.SerialBalances | app/services/account.py:86-95 | In a legal serial history every balance is the signed sum of the account's operations and never negative |
| MoneyTheorems.BalanceIsLedgerSum | app/services/account.py:106-118 | In every reachable state each committed balance is the sum of the account's committed amounts and never negative, and an account that does not exist has none |
| MoneyTheorems.Serializable | app/services/account.py:81-121 | The committed accounts are the commits run one by one in commit order, and every success returned what its operation yields at its place in that order, while users and categories come |
| MoneySolo.OpenAlone | app/services/account.py:82-85 | With the row free, opening the transaction locks exactly the target row and reads it, and a missing user or account ends it with nothing changed |
| MoneySolo.TransactionAlone | app/services/account.py:81-97 | An undisturbed transaction commits what the business rule gives as one effect and leaves no lock, or changes nothing at all |
| MoneySolo.AcquireAlone | app/idempotency/store.py:43-54 | An undisturbed acquire either takes a free key, or ends the call with a conflict or with the stored response, leaving the key as it was |
| MoneySolo.WholeCallIsHandle | app/idempotency/runner.py:30-57 | One request run with no interference leaves the cells, accounts, history and outcome of the one-call specification |
| MoneySolo.RetryAfterSuccessReplays | app/idempotency/runner.py:7-15 | After a success the key replays that response and changes nothing, whatever it asks; after a failure nothing has changed and the retry runs afresh |
| MoneySolo.LateCallAlone | app/services/account.py:96-99 | When the commit's reply is lost, the money has moved, the key is free again and the client was told of a failure |
| MoneySolo.FreeKeyCommitsAgain | app/idempotency/runner.py:53-55 | In any state at all, once a key is free, an undisturbed request under it that can be performed commits under it once more, whatever has committed before |
| MoneySolo.AtMostOnceExactly | app/idempotency/runner.py:51-56 | At most one commit per key in every run if and only if produce never raises after its commit and keys never expire |
| Idempotency.IdempotencyStore.SetNx | app/idempotency/store.py:46 | Sets the key, for its time to live, only when it is absent and says which, or raises with or without having set it; a key that is there keeps value and expiry |
| Idempotency.IdempotencyStore.Wait | app/idempotency/store.py:24-46 | A key is gone exactly when its time to live has passed, and nothing else changes |
| Idempotency.IdempotencyStore.TryAcquire | app/idempotency/store.py:43-54 | Not found is answered exactly to the caller whose SET NX put the marker; a taken key is reported in progress or with its response; a key that goes between the two commands makes the parse raise, and that only |
| Idempotency.IdempotencyStore.SaveResponse | app/idempotency/store.py:56-57 | The key holds the response for a whole time to live from now and nothing else changes, or the command raises with or without that |
| Idempotency.IdempotencyStore.Release | app/idempotency/store.py:59-61 | The key is free and nothing else changes, or the command raises with or without that |
| Idempotency.MoneyEndpoint.Produce | app/api/v1/accounts.py:36-37 | Runs the one service call the endpoint wraps |
| Idempotency.MoneyEndpoint.Call | app/idempotency/runner.py:30-57 | The endpoint over the real store and service objects ends with the cells, tables, cache and outcome of the one-call specification, for every failure of the commit, the cache and the store's own commands |
| Idempotency.MovedExactly | app/idempotency/runner.py:41-57 | For every combination of failures the money moves if and only if the operation can be performed, its commit is done, and the key, if there is one, was free and acquired |
| Idempotency.HiddenExactly | app/idempotency/runner.py:51-57 | It moves and the client is told of a failure if and only if moreover the commit, the drop of the cached user or the storing of the response raises |
| Idempotency.FailureTells | app/idempotency/runner.py:51-57 | So a failure hides a commit exactly when it is a save that raised or an exception after the commit |
| Idempotency.FreeExactly | app/idempotency/runner.py:51-56 | Afterwards the key is free if and only if it was taken and went between the two commands, or was free and either SET NX did nothing or produce raised and the release was done |
| Idempotency.EndpointIsMachineCall | app/idempotency/runner.py:30-57 | Without failures the endpoint does what one uninterrupted call of the interleaved machine does |
| Idempotency.LateFailureFreesTheKey | app/services/account.py:96-100 | A deposit whose cache delete fails reports failure and frees its key although committed: the same request sent again succeeds and the balance has grown by twice the amount |
| UnitOfWork.UnitOfWork.constructor | app/db/uow.py:42-45 | A new unit of work has no session |
| UnitOfWork.UnitOfWork.Enter | app/db/uow.py:87-98 | Refuses to enter twice and then changes nothing; otherwise opens a new session with no repositories |
| UnitOfWork.UnitOfWork.Exit | app/db/uow.py:100-112 | Drops the session, all it had not committed and every repository, with or without an exception and even when the rollback raises; when closing the session raises, the unit of work stays entered |
| UnitOfWork.UnitOfWork.Repository | app/db/uow.py:53-63 | Inside a session a repository is bound to that very session and kept; outside one it is an error |
| UnitOfWork.UnitOfWork.Commit | app/db/uow.py:114-115 | The committed tables become exactly what the session saw, acknowledged or not, or are untouched when the commit is not done |
| UnitOfWork.UnitOfWork.Rollback | app/db/uow.py:117-118 | The pending statements are gone and the committed tables untouched |
| Tables.ApplyOneMore | app/db/uow.py:1-18 | What a session sees after one more statement is that statement applied to what it saw before |
| Services.SumKept | app/models/account.py:58-64 | Deleting accounts with their transactions leaves the sums of all other accounts as they were |
| Services.ServeKeepsReconciled | app/services/account.py:81-121 | Every user or account service call, failing or not, keeps each balance equal to the sum of the account's transaction rows, non-negative, with no orphaned row |
| Services.RunKeepsReconciled | app/services/account.py:52-121 | The same over every run of service calls with failures at commits and cache commands |
| ServiceRules.CreateExactly | app/services/user.py:75-90 | A user is created if and only if nobody has the email; then the row and an event with the same id and email are there together, nothing else has changed, and the empty detail is cached |
| ServiceRules.GetCaches | app/services/user.py:95-106 | A get leaves the detail it serves in the cache and changes no table; a cached detail is served as it is |
| ServiceRules.DetailShows | app/services/user.py:104 | The detail shows the user's own columns, all and only the user's accounts, and the profile if there is one |
| ServiceRules.UpdateExactly | app/services/user.py:133-152 | Refused if and only if the user is missing; what was sent is set, what was not stays, one version is counted if and only if a field differs, and nothing else changes |
| ServiceRules.PasswordExactly | app/services/auth.py:127-139 | Refused if and only if the user is missing, has no password or did not prove it; only password and version change, and the cache is not touched |
| ServiceRules.ProfileExactly | app/services/user.py:171-187 | Refused if and only if the user is missing; what was sent replaces what was there, what was not sent stays, and a new profile has nothing else |
| ServiceRules.KeptExactly | app/models/account.py:58-64 | Of the transactions exactly those of other accounts stay, as often as before |
| ServiceRules.KeptInOrder | app/models/account.py:58-64 | And in their order |
| ServiceRules.DropMeans | app/models/user.py:42-46 | Without a user there is nothing of that user and everything of everybody else |
| ServiceRules.DeleteExactly | app/services/user.py:156-161 | A user is deleted if and only if there is one, with its profile, accounts and their transactions, and nothing of anybody else nor any event |
| CacheAgreement.OthersKeepTheirDetail | app/services/user.py:39-43 | No call changes the detail of any user but the one whose entry it drops |
| CacheAgreement.OwnersDetailChanges | app/services/account.py:99 | A committed call that the condition below names does change that user's detail |
| CacheAgreement.ServeAgreesExactly | app/services/user.py:74-187 | On a cache that agrees with the tables, a call leaves it agreeing if and only if it is not one that changes the detail of a cached user, commits, and does not get to drop the entry (its commit's reply lost, the reload of an updated row raising, or the cache command not done) |
| CacheAgreement.RunKeepsAgreement | app/services/user.py:74-187 | The cache agrees after every serial run of user and account calls in which no commit goes without its cache command, whatever else fails |
| CacheAgreement.GetServesTheTables | app/services/user.py:93-106 | While the cache agrees, a get serves exactly what the tables hold, refuses an unknown user, or fails on a cache error |
| CacheAgreement.LostInvalidationDisagrees | app/services/user.py:143-151 | A failed cache delete, a failed reload and a lost commit reply each leave a stale entry behind an update |
| CacheAgreement.AgreementExactly | app/services/user.py:74-187 | The cache agrees with the tables at every point of a serial run if and only if no call of the run meets that condition |
| ServiceClasses.AllFoundIffKnown | app/services/account.py:91-94 | Comparing the number of categories found with the number of distinct ids asked for detects an unknown id, and only that, duplicates included |
| ServiceClasses.AccountService.CreateAccount | app/services/account.py:53-61 | Step by step through the unit of work and the cache, ends in the tables, cache and reply of the specification for every failure |
| ServiceClasses.AccountService.Deposit | app/services/account.py:74-100 | The same for a deposit, with unknown accounts and categories refused and nothing written |
| ServiceClasses.AccountService.AllFound | app/services/account.py:88-93 | True exactly when every category asked for is in the database |
| ServiceClasses.AccountService.Withdraw | app/services/account.py:103-121 | The same for a withdrawal, refused when the balance is short |
| ServiceClasses.UserService.Create | app/services/user.py:74-90 | The user row and its outbox event commit together or not at all; then the empty detail is cached |
| ServiceClasses.UserService.Get | app/services/user.py:93-106 | Serves the cached detail, or reads, caches and serves it, for every failure of the two cache commands |
| ServiceClasses.UserService.Update | app/services/user.py:132-152 | Changes only what was sent, raises the version only when a column changes, reloads, drops the cached detail; a failure after the commit leaves the entry |
| ServiceClasses.UserService.Delete | app/services/user.py:155-165 | Removes the user with everything that hangs on it, drops the cached detail, and then, if all that went well, revokes all the user's sessions |
| ServiceClasses.UserService.UpsertProfile | app/services/user.py:168-187 | Creates the profile or changes only the fields that were sent, drops the cached detail |
| ServiceClasses.UserService.ChangePassword | app/services/auth.py:123-139 | Changes only the password and the version, and leaves the cache alone |
| ServiceClasses.UserService.SetPassword | app/services/auth.py:134-139 | The second transaction writes the hash for a user that still exists and refuses one that does not |
| Staleness.NextKeeps | app/services/user.py:93-106 | Every step of readers, creators and mutators keeps: what the cache holds, or is about to get, was committed at its reading time and outlives it by at most delay plus time to live |
| Staleness.RunKeeps | app/services/user.py:93-106 | The same over every interleaving with crashes and evictions |
| Staleness.LatePutServesOld | app/services/user.py:99-105 | A put that lands after the invalidation serves the replaced value until the last instant of the entry |
| Staleness.FreshExactly | app/services/user.py:36 | Every value served from the cache was committed less than a bound before, in every run, if and only if the bound is at least the time to live plus the longest delay of a put |
| Invalidation.InvalidatedMisses | app/services/user.py:151 | After an invalidation the next lookup serves nothing and goes to the database |
| Invalidation.LookupServesExactly | app/services/user.py:95-97 | A lookup serves exactly the value of a live entry |
| Invalidation.ReadThenPut | app/services/user.py:99-105 | A client that missed, undisturbed, caches what is committed for a whole time to live |
| Invalidation.GoneIsMissed | app/services/user.py:95-99 | An entry that ran out or was evicted is served to nobody; the next lookup goes to the database |
| Invalidation.ReplacedOnlyByLatePut | app/services/account.py:99 | From an invalidation on, in every interleaving, a value replaced before it is served again only if a client that had read it before puts it afterwards |
| Invalidation.NobodyHoldsNothingReturns | app/services/account.py:99 | So when nobody holds a value at the invalidation, nothing replaced before is ever served again |
| Versions.RunKeeps | app/services/user.py:132-145 | Every interleaving of loads, commits, deletes and crashes keeps: each write was computed from the row it replaced, each loaded object is what some prefix of the writes had left |
| Versions.NoLostUpdate | app/models/base.py:75-94 | The row is the successful effective updates applied in commit order, each from exactly the version it replaced, and the version grew by their number |
| Versions.RefusedWroteNothing | app/services/user.py:140-145 | A call told of a conflict or a missing user wrote nothing, nor did one that is not over, and no call wrote twice |
| Versions.WroteExactly | app/services/user.py:138-143 | A call wrote, whatever its client was told, if and only if a commit of it was done, answered or not, while it changed a column and the row was still the one it had loaded |
| Versions.StaleExactly | app/models/base.py:79-84 | A commit is refused if and only if it changes a column and the row is gone or was written since the load |
| Versions.UpdateAlone | app/services/user.py:132-149 | Undisturbed, the versioned load and commit leave the row of the update service |
| Versions.PasswordAlone | app/services/auth.py:134-139 | Undisturbed, a password change sets the new hash and counts one version if and only if it differs |
| Versions.EventsTell | app/services/user.py:132-145 | A load of a missing user is refused; a commit whose reply is lost leaves the same row as an answered one and an unknown outcome |
| SessionRaces.LostStaysLost | app/security/session_store.py:88-99 | Once a session's hash is gone or nameless it stays so in every interleaving of all session commands, late rotation writes included |
| SessionRaces.RevokedNeverValidates | app/security/session_store.py:81-86 | After that loss no token of the session validates for a user with a non-empty id, ever |
| SessionRaces.LogoutLoses | app/security/session_store.py:104-162 | The write of any revoke is such a loss, whatever came between its two commands |
| SessionRaces.RevivableOnlyForNobody | app/security/session_store.py:81-98 | Some run revives a lost session for a user id if and only if that id is empty |
| SessionRaces.ExistsAgainExactly | app/security/session_store.py:88-102 | Once a session's hash is gone, some run makes its id exist again if and only if some client has read the session for a rotation and not yet written it |
| SessionRaces.RevokedMayExistAgain | app/security/session_store.py:90-102 | A witness: a lost session whose id exists again |
| SessionRaces.ValidatedRefreshes | app/services/auth.py:103-120 | A refresh past its validation hands out its pair whatever the session's token is by then |
| SessionRaces.ValidatesAgainExactly | app/security/session_store.py:81-99 | A token that validates now validates after any further commands if and only if the session is still owned and none of them was a rotation write of it |
| SessionRaces.AcceptedAgainExactly | app/services/auth.py:102-111 | After one client's token was accepted, a second client presenting it later is accepted if and only if the session is still owned and no rotation of it has been written in between |
| SessionRaces.TokenRefreshedTwice | app/services/auth.py:102-120 | And it does happen: two refreshes of one token that both validate before either writes are both granted new pairs |
| SessionRaces.LoginSlipsThroughRevokeAll | app/security/session_store.py:140-150 | A witness: a login between the two commands of a logout everywhere leaves a live session that is in no index |
| SessionIndex.RevokeAllEndsExactly | app/security/session_store.py:140-150 | With a complete index, ends the user's live sessions and no other |
| SessionIndex.RevokeOthersEndsExactly | app/security/session_store.py:152-162 | With a complete index, ends the user's live sessions except the kept one and no other |
| SessionIndex.CreateKeepsIndex | app/security/session_store.py:54-79 | A login keeps every live session in its user's index, which expires no earlier |
| SessionIndex.RotateKeepsIndex | app/security/session_store.py:88-99 | A rotation keeps that too, although it renews only one session |
| SessionIndex.RunKeeps | app/security/session_store.py:54-162 | Every run of atomic store methods, called with any arguments in any order, keeps every live session in its user's index, which expires no earlier, and no other user's session in it |
| SessionIndex.LogoutsEndExactly | app/security/session_store.py:140-162 | After any such run, revoke_all ends exactly the user's live sessions, revoke_others all of them but the kept one, and every session that lives on is unchanged |
| SessionIndex.IndexIsExact | app/security/session_store.py:117-138 | After any such run, the live ids in a user's index are exactly that user's live sessions, and the index expires no earlier than any of them |
| SessionLives.CreateLives | app/security/session_store.py:73-79 | A new session validates, with its own token and user only, for exactly the time to live, is listed as long, and changes no other session's life |
| SessionLives.CreatedLine | app/security/session_store.py:65-72 | It is listed with its times and the address and agent it came from, empty ones as absent |
| SessionLives.RotateRenews | app/security/session_store.py:94-98 | A rotation starts the time to live anew: the new token, and no other, is valid for exactly that long |
| SessionLives.RotateRenewsTheIndex | app/security/session_store.py:97 | It renews the user's index for as long, with its members, and no other index |
| SessionLives.RotateKeepsTheRest | app/security/session_store.py:95 | It changes nothing else of the session, and no other session |
| SessionLives.RotateOnlyOwn | app/security/session_store.py:90-92 | Exactly a live session of that user is rotated; otherwise nothing changes |
| SessionLives.RevokedAreForgotten | app/security/session_store.py:104-162 | Each revocation takes exactly what it ends out of the user's index, and touches no other user's |
| SessionLives.RevokedAlone | app/security/session_store.py:104-162 | And leaves the hashes of all other sessions as they were |
| SessionLives.LeftAloneLives | app/security/session_store.py:54-162 | In every run of store methods, a session that nobody rotates or revokes lives exactly until the time to live since it was last created or rotated has passed |
| SessionLives.RefreshKeepsLoggedIn | app/services/auth.py:109-120 | So a refresh keeps its user logged in for exactly the time to live |
| SessionRuns.RunIsMethods | app/services/auth.py:62-156 | Every run of service calls acts on the store as some run of store methods, so those promises hold for it |
| SessionRuns.RefreshExactly | app/services/auth.py:96-120 | A pair is granted if and only if the token is the newest of a live session of a user that may log in; then the new token is valid and the old one is not, else the session has ended; no other session changes |
| SessionRuns.RunKeeps | app/services/auth.py:62-156 | Every run of logins, refreshes, logouts and waiting, each call whole, keeps the token chains intact |
| SessionRuns.TokensFormAChain | app/services/auth.py:96-120 | The accepted tokens of a session are its issued ones in order without the newest, none accepted twice, and a live session holds the newest |
| SessionRuns.DeadStaysDead | app/services/auth.py:103-107 | A session that is gone stays gone through every run of calls |
| SessionRuns.ReuseEndsTheSession | app/services/auth.py:103-107 | Presenting an accepted token again ends the session, grants nothing, and no token of it validates in any later run |
| SessionAtomicity.RefreshAlone | app/services/auth.py:96-120 | The commands of one refresh run together leave the store and the grant of the whole call |
| SessionAtomicity.LogoutAlone | app/security/session_store.py:104-115 | The commands of a logout, undisturbed, leave the store as the whole call does, and the client done |
| SessionAtomicity.LogoutEverywhereAlone | app/security/session_store.py:140-162 | So do those of the two logouts of many sessions |
| SessionAtomicity.RotatesOnlyLive | app/security/session_store.py:90-92 | A refresh whose session has gone, or changed hands, since it validated ends there and writes nothing |
| SessionAtomicity.CompleteExactly | app/security/session_store.py:117-162 | However single commands interleave, the index misses no live session at any point of the run if and only if no revoke_all writes while its list, read before, lacks a live session of the user |
| SessionAtomicity.MissedLoggedInSince | app/security/session_store.py:54-79 | A list can lack only a session created after it was read: rotations, revokes and expiry never make it stale |
| SessionAtomicity.SlippedMisses | app/security/session_store.py:140-150 | And it happens: a login between the read and the write |
| SessionStore.Insert | app/security/session_store.py:137 | Puts one line into a list sorted by creation time, keeping it sorted and losing none |
| SessionStore.SortedThroughout | app/security/session_store.py:137 | In a sorted list any earlier line was created no later than any later one |
| SessionStore.LinesGrow | app/security/session_store.py:124-136 | Visiting one more session id adds exactly its line, or none when it has expired |
| SessionStore.SessionStore.Create | app/security/session_store.py:54-79 | The new session is live, owned, in its user's index and validates with its own token and user only; session and index expire together; every other session and index is as it was |
| SessionStore.SessionStore.Clipped | app/security/session_store.py:71 | The longest prefix of the agent of at most 256 characters |
| SessionStore.SessionStore.Validate | app/security/session_store.py:81-86 | True exactly for a live session of this user with this token |
| SessionStore.SessionStore.Rotate | app/security/session_store.py:88-99 | The new token, stored and renewing both expiries, or nothing for a session that is gone or another's |
| SessionStore.SessionStore.Revoke | app/security/session_store.py:104-115 | Removes the hash and its index entry and returns 1, or changes nothing and returns 0 when no user can be read |
| SessionStore.SessionStore.ListSessions | app/security/session_store.py:121-138 | One line for each live session in the index, no other, sorted by creation time |
| SessionStore.SessionStore.RevokeAll | app/security/session_store.py:140-150 | Removes every indexed session and the index, and returns how many ids it held |
| SessionStore.SessionStore.RevokeOthers | app/security/session_store.py:152-162 | Removes every indexed session but the kept one, and returns their number |
| AuthService.AuthService.Login | app/services/auth.py:62-87 | The user of that email with matching password gets a pair for a new session if active and an error otherwise; wrong credentials are one error whether or not the email exists; no failure touches the store |
| AuthService.AuthService.Refresh | app/services/auth.py:96-120 | Grants a pair exactly when the whole-call specification does, for the same session, user and role with the new token; a stale token ends the session, and so does a user who may not log in; a subject that is not a uuid raises after the session has been rotated |
| AuthService.AuthService.LogoutCurrent | app/services/auth.py:142-144 | Ends the one session, or nothing without a session id, and says which |
| AuthService.AuthService.LogoutAll | app/services/auth.py:147-149 | Ends every indexed session of the user |
| AuthService.AuthService.LogoutOthers | app/services/auth.py:152-156 | Ends all but the kept session, or all of them when there is none to keep |
| AuthService.AuthService.ListSessions | app/services/auth.py:90-93 | The user's live sessions by creation time, with exactly the caller's own marked |
| AuthService.PresentTwice | app/services/auth.py:103-107 | A valid token presented twice is granted once, refused the second time, and the session is gone |
| Outbox.NextKeeps | app/outbox/relay.py:44-72 | Every event, with overlapping passes, crashes and retention, keeps: each committed event is pending or in the log, marked rows are in the log, the log holds committed events only |
| Outbox.RunKeeps | app/outbox/relay.py:44-72 | The same over every run |
| Outbox.LosesAndInventsNothing | app/repositories/outbox.py:24-57 | From the empty system, in every run: nothing committed is lost, nothing is marked that was not appended, nothing is in the log that was not committed, and messages are unaltered |
| Outbox.AbandonedStays | app/services/user.py:75-84 | An event whose transaction ended without a commit never becomes committed or delivered |
| Outbox.RolledBackNeverDelivered | app/services/user.py:80-84 | The event of a rolled-back transaction is never in the log, whatever happens next |
| Outbox.StartsExactly | app/outbox/relay.py:28-33 | A pass starts with the oldest pending rows if and only if there are any and no other pass is in its way |
| Outbox.CommitInserts | app/services/user.py:75-84 | The commit of a transaction makes its event a new pending row and commits it; a rollback leaves neither |
| Outbox.EndPassMarks | app/repositories/outbox.py:40-51 | The end of a pass marks exactly the rows it sent as published now, with one attempt more, and no other |
| Outbox.RetainedExactly | app/scheduler/jobs.py:59-67 | A row marked now outlives a clean-up with that retention after d ticks if and only if d is not longer |
| OutboxCopies.RunAccounts | app/outbox/relay.py:53-70 | Without overlap, every run keeps the copies of each event accounted for: by passes that lost it, by the running pass, or by the mark |
| OutboxCopies.CopiesAccounted | app/outbox/relay.py:53-70 | Without overlap, an event that is no longer pending was delivered once plus once per pass that published it and ended before the mark; no event exceeds that |
| OutboxCopies.OverlapDuplicates | app/outbox/relay.py:46-57 | Two overlapping passes deliver the same row twice though neither was lost |
| OutboxCopies.CopiesBoundedExactly | app/outbox/relay.py:12-15 | That bound holds in every run if and only if passes do not overlap, or fetch nothing |
| OutboxRelay.OutboxRepository.AddEvent | app/repositories/outbox.py:24-28 | Exactly the new event joins the pending ones, every other row is as it was, and the pending rows keep their order around it |
| OutboxTable.InsertMeans | app/repositories/outbox.py:24-28 | The rows still to publish after an insert are those before with the new one somewhere among them |
| OutboxRelay.OutboxRepository.FetchUnpublished | app/repositories/outbox.py:30-38 | At most `limit` pending rows with their messages, in creation order; a pending row left out comes after all of them, and then there are exactly `limit` |
| OutboxTable.FetchMeans | app/repositories/outbox.py:30-38 | The recursive fetch is that list: the oldest pending rows, no other, none skipped |
| OutboxRelay.OutboxRepository.MarkPublished | app/repositories/outbox.py:40-49 | Exactly the given rows become published now with one more attempt; all other rows, and the order, stay; an empty list changes nothing |
| OutboxRelay.OutboxRepository.DeletePublishedBefore | app/repositories/outbox.py:51-57 | Exactly the rows published before the cutoff go, every other row and the order stay, and the number of deleted rows is returned |
| OutboxRelay.PassDelivers | app/outbox/relay.py:53-63 | A pass counts as sent exactly the rows of its batch whose publish returned, and appends exactly those not refused without effect |
| OutboxRelay.OutboxRelay.PublishBatch | app/outbox/relay.py:53-63 | The log grows by the appended messages in batch order, and the sent ids are those whose publish returned |
| OutboxRelay.OutboxRelay.RunOnce | app/outbox/relay.py:44-72 | A pass appends its batch to the log, marks exactly what was sent and returns its number; when the marking fails the table is untouched but the log is not |
| OutboxRelay.PassAlone | app/outbox/relay.py:44-72 | The machine's pass run from start to end leaves the table, log and losses of the method's pass |
| OutboxRelay.PassLeaves | app/outbox/relay.py:47-70 | A pass leaves pending the refused rows of its batch, then everything behind the batch, in order |
| OutboxRelay.PassProgress | app/repositories/outbox.py:30-38 | With f refused rows, a pass publishes at least min(g, batch - f) of the g publishable ones, the oldest, and keeps the refused ones |
| OutboxRelay.PassesDrain | app/outbox/relay.py:44-72 | With f below the batch size, k passes with k * (batch - f) at least g publish all g rows, each once and in creation order |
| OutboxDrain.PassesRun | app/outbox/relay.py:44-72 | k whole passes of the machine leave the table, and append the messages, of that computation |
| OutboxDrain.PassesDrainTheOutbox | app/repositories/outbox.py:30-38 | So that many passes of the machine append the messages of all g rows to the broker's log, each once and in order, leave the f pending and lose nothing |
| OutboxRelay.StuckForever | app/outbox/relay.py:59-66 | A pass whose whole batch is refused changes nothing, and neither does any later one |
| OutboxRelay.DrainsExactly | app/outbox/relay.py:38-38 | Every outbox with at most f always-refused rows is drained of the others if and only if f is below the batch size |
| Scheduler.NextKeeps | app/scheduler/scheduler.py:133-159 | While the lock outlives every stay, each event keeps: whoever is inside a job still holds the lock it set |
| Scheduler.RunKeeps | app/scheduler/scheduler.py:133-159 | The same over every run of any number of workers that leave, fail, are cancelled or die |
| Scheduler.SafeExactly | app/scheduler/scheduler.py:149-159 | In every run at most one worker is inside a job and each release deletes its own lock, if and only if every stay ends before its lock expires |
| Scheduler.OverstayStealsTheLock | app/scheduler/scheduler.py:156-159 | The release of a worker that overstayed frees the job while another worker is inside |
| Scheduler.WholeStay | app/scheduler/scheduler.py:133-147 | Undisturbed, a free job is entered, left and free again |
| Scheduler.EntersExactly | app/scheduler/scheduler.py:149-154 | A worker enters a job if and only if no live lock is there, and its lock then blocks the others for exactly the time to live |
| Scheduler.LostReplyBlocks | app/scheduler/scheduler.py:149-154 | An acquisition whose reply is lost blocks the job for as long with nobody inside |
| Scheduler.LeavesOrDies | app/scheduler/scheduler.py:140-147 | A worker that leaves unlocks the job; one that dies leaves the lock behind |
| Scheduler.Scheduler.AcquireLock | app/scheduler/scheduler.py:149-154 | Takes the lock with its time to live exactly when no live lock is there, or raises with or without having taken it |
| Scheduler.Scheduler.ReleaseLock | app/scheduler/scheduler.py:156-159 | Deletes whatever lock is there, or raises with or without that |
| Scheduler.GoesOnExactly | app/scheduler/scheduler.py:133-147 | A firing calls the job at most once, exactly when it enters, and goes on to the next one if and only if no lock command it sends raises and the job, if it ran, was not cancelled; the job's own exceptions do not matter |
| Scheduler.LockGoneExactly | app/scheduler/scheduler.py:145-147 | However the job leaves, its lock is gone if and only if the delete was done or there was none left, and no other lock is touched |
| Scheduler.FiringLeaves | app/scheduler/scheduler.py:133-147 | A firing that does not enter takes no time and locks only what it could take unanswered; one that enters lasts as long as the job and leaves every other lock as the others left it |
| Scheduler.LostReplyLocks | app/scheduler/scheduler.py:134-153 | An acquisition whose reply is lost locks the job for its whole time to live with nobody inside |
| Scheduler.Scheduler.RunJob | app/scheduler/scheduler.py:133-147 | Step by step, with time passing and other workers changing the locks meanwhile, leaves clock, locks, count and ending of that firing |
| Scheduler.Scheduler.Loop | app/scheduler/scheduler.py:113-123 | Reaches the stop event if and only if every firing before it goes on; then it has fired once per full round and once on start if asked; otherwise it ends in the state and with the exception of the first firing that does not |
| RelayJobs.NextKeeps | app/scheduler/jobs.py:70-90 | While the lock outlives every stay, each event of workers and outbox together keeps every relay pass inside a job its worker holds the lock of |
| RelayJobs.NobodyElse | app/scheduler/jobs.py:79-88 | Then a relay that does not look for other passes behaves as one that waits for them |
| RelayJobs.OutboxRun | app/scheduler/jobs.py:49-67 | Every composed run acts on the outbox as some run of the outbox machine, one without overlap if the lock outlives every stay |
| RelayJobs.ComposedLosesNothing | app/scheduler/jobs.py:49-67 | Under the scheduler, even with the lock overrun, nothing is lost or invented |
| RelayJobs.DeliveredOncePlusLost | app/outbox/relay.py:12-15 | Under the scheduler with stays shorter than the lock, each settled event was delivered once plus its lost publications |
| RelayJobs.OverstayDuplicates | app/scheduler/scheduler.py:43 | A stay as long as the lock lets a second worker's pass deliver the same row again |
| RelayJobs.ScheduledRelayExactly | app/scheduler/jobs.py:79-88 | No event of the scheduled relay exceeds once plus its lost publications in any run, if and only if every stay ends before its lock expires, or a pass fetches nothing |
| RelayFiring.FiringRelays | app/scheduler/jobs.py:49-56 | A firing of the relay that finds its job free and rows to relay appends to the log what the broker takes, marks what it acknowledged, and leaves the job free |
| RelayFiring.LockedOut | app/scheduler/scheduler.py:133-139 | One that finds the job locked, by whomever, leaves workers and outbox as they are |
| RelayFiring.DeathLeaves | app/scheduler/scheduler.py:140-147 | One whose worker dies in mid-pass leaves its rows unmarked, its publications lost and the job locked for exactly what remains of the time to live |
| RateLimit.RateLimiter.TiersFromSettings | app/ratelimit/limiter.py:82-89 | The long window first, the burst window second exactly when its limit is positive |
| RateLimit.RateLimiter.Check | app/ratelimit/limiter.py:30-52 | The loop over the tiers leaves the counters and verdict of the recursive specification, and no verdict when there are no tiers |
| RateLimit.OthersUntouched | app/ratelimit/limiter.py:34-40 | A call changes no counter of another identity or of a tier it does not have |
| RateLimit.OwnHitOnly | app/ratelimit/limiter.py:37-40 | The counter of a tier that shares its name with no other ends as if its own hit were the only one |
| RateLimit.CountsAlone | app/ratelimit/limiter.py:37 | A tier's count is what it would be alone, unless an earlier tier counts under the same name |
| RateLimit.TallyByTier | app/ratelimit/limiter.py:41-49 | The call is blocked exactly when some tier's remainder is negative, and the running minimum is the scan of the remainders |
| RateLimit.AllowedIffEveryTier | app/ratelimit/limiter.py:91-105 | For any tiers: allowed if and only if every tier's count, this call and earlier tiers of its name included, is within its limit; then the remainder is the least over the tiers |
| RateLimit.LeastIsLeast | app/ratelimit/limiter.py:102 | The reference minimum is among the remainders and below none |
| RateLimit.ScanMisses | app/ratelimit/limiter.py:47-49 | The running minimum, cut off at zero, differs from the true one if and only if a real -1 is overwritten and only positive remainders follow |
| RateLimit.ReportedRemainderExactly | app/ratelimit/limiter.py:82-103 | For the tiers of the settings the reported remainder is the true one if and only if it is not the case that the long window is over by one while the burst window has room |
| RateLimit.EveryCounterExpires | app/ratelimit/limiter.py:37-40 | No call leaves a counter without an expiry |
| RateLimit.RetryIsLongest | app/ratelimit/limiter.py:42-46 | For any tiers the retry time is the longest remaining life among the exceeded ones, and zero without one |
| RateLimit.LongestMeans | app/ratelimit/limiter.py:45 | That longest is one of the lives, if positive, and below none |
| RateLimit.CounterStays | app/ratelimit/limiter.py:37-40 | The later tiers of a call leave the expiry of a live counter alone, even those of its name |
| RateLimit.WaitingResets | app/ratelimit/limiter.py:42-46 | Silence for the retry time resets every exceeded tier with a positive window or a name no later tier has; one tick less leaves one of them standing |
| RateLimitBound.StartsIsCeiling | app/ratelimit/limiter.py:14-15 | The number of windows that can start in a stretch is its length over the window rounded up |
| RateLimitBound.HitPays | app/ratelimit/limiter.py:37-40 | Each hit, admitted or not, is paid for by what the tier can still admit in the interval |
| RateLimitBound.CallPays | app/ratelimit/limiter.py:34-40 | So does a whole call, with the hits of later tiers of the same name |
| RateLimitBound.AdmittedWithinBudget | app/ratelimit/limiter.py:30-52 | From any counters, the calls admitted in an interval stay within what the tier's counter still allows |
| RateLimitBound.MostAdmittedIs | app/ratelimit/limiter.py:14-15 | The bound below is limit * (windows in the interval, rounded up, plus one) - 1, or limit * windows when the interval is one tick longer than some windows; 2 * limit - 1 for one window's length of at least two ticks |
| RateLimitBound.SlidingIntervalBound | app/ratelimit/limiter.py:14-16 | For any tiers, any calls in time order from any counters and any interval, each tier that no earlier tier of its name opens windows for admits at most MostAdmitted calls of an identity, none when its limit is not positive |
| RateLimitBound.BoundIsReached | app/ratelimit/limiter.py:14-15 | For every limit, every window and every length of the interval some run admits exactly that many |
| RateLimitBound.SharedNameBreaksTheBound | app/ratelimit/limiter.py:92-95 | A tier behind another of its name counts in that one's windows, and its own bound fails: a call at every tick passes a tier of 2 in 100 |
| Broker.InMemoryBroker.Publish | app/broker/memory.py:40-52 | The loop over the groups schedules the deliveries and moves the turns of the specification |
| Broker.InMemoryBroker.Subscribe | app/broker/memory.py:54-57 | The handler joins its group, by default the one named after it; the turns are kept |
| Broker.JoinedMeans | app/broker/memory.py:54-56 | The handler goes to the end of the group of that name, or of a new last group, and no other group changes |
| Broker.OneOfEachGroup | app/broker/memory.py:41-50 | A publish gives the message to exactly one handler of each non-empty group, the one whose turn it is, and moves the turn on |
| Broker.OnlyToSubscribers | app/broker/memory.py:41-50 | Nothing is dispatched to anyone but a handler of a group of the topic |
| Broker.TurnsAreShared | app/broker/memory.py:45-47 | Over any publishes each handler of a group gets the turns that fall on its position, other topics in between notwithstanding |
| Broker.RoundRobin | app/broker/memory.py:7-10 | As many publishes to a topic as a group has handlers reach each of them exactly once, whatever the counter was |
| Broker.SubscribeKeeps | app/broker/memory.py:54-56 | A subscription keeps the routing well formed, leaves other topics alone, and its handler is last in its group |
| HttpClient.PauseBounded | app/clients/base.py:344-359 | A pause is never negative and at most 1.2 times the cap, for every attempt and every Retry-After |
| HttpClient.PauseMeans | app/clients/base.py:350-359 | A requested pause is honoured up to the cap; without one the pause is at least the base or the cap, and below the cap it grows eightfold every three attempts, jitter included |
| HttpClient.Request | app/clients/base.py:182-267 | The loop ends, with the outcome, the sends and the total pause of the recursive specification |
| HttpClient.SendsExactly | app/clients/base.py:186-244 | The request sends one thing n times where n is the first attempt whose reply ends it, and n is within the attempts left, one for a method that is not retried |
| HttpClient.RetriesExactly | app/clients/base.py:204-228 | A request of a retried method goes on exactly past transport failures and retryable statuses while it has attempts, and ends at the first other response or the last attempt; any other method sends once |
| HttpClient.RetriesAtLeastOnce | app/clients/base.py:214-228 | So a first reply that may be retried leads to another send |
| HttpClient.EndsExactly | app/clients/base.py:207-267 | The last reply decides: a transport failure or a status of 400 and more is the external API's failure, an unreadable body of a good response an unexpected one, anything else is returned |
| HttpClient.PausesBounded | app/clients/base.py:344-359 | The pauses total at most the remaining attempts but one, times 1.2 times the cap |
| HttpClient.RequestBounded | app/clients/base.py:188-267 | A request makes between one and `attempts` sends, exactly one for a method that is not retried, pauses at most (attempts - 1) * 1.2 * cap, and ends as its last reply says |
| HttpClient.MostSleptIsProduct | app/clients/base.py:356-359 | The bound on the total pause of a request is (attempts - 1) times 1.2 times the cap |
| HttpClient.StopsOnce | app/clients/base.py:188-228 | The replies determine the number of sends |
| TokenLogin.TokenClient.Login | app/clients/auth.py:101-107 | Posts to the login path once per attempt and yields the token, the failure of the request, or an unexpected error when the answer has none |
| TokenLogin.TokenClient.Base | app/clients/auth.py:115-120 | Logs in first exactly when there is no token and the request is not itself the login, then sends with that token |
| TokenLogin.TokenClient.Request | app/clients/auth.py:122-130 | Leaves the outcome, token and wire of the specification, with its one new login after a 401 |
| TokenLogin.CalledBounded | app/clients/auth.py:101-130 | Whatever the server answers, a request sends at most twice its attempts and logs in at most twice, once when it starts with a token |
| TokenLogin.SecondRoundExactly | app/clients/auth.py:122-130 | There is a second round, beginning with a login, if and only if the first ended in a 401 and a non-empty token was held |
| TokenLogin.FirstSend | app/clients/auth.py:109-120 | A held token is sent without logging in; without one the login comes first, bearing nothing |
| TokenLogin.GoodBearsTheToken | app/clients/auth.py:115-130 | A request that ends well ended with the token the client now holds and with the server's answer to that send |
| TokenLogin.RecoversExactly | app/clients/auth.py:122-130 | Against a server that grants a token, serves its bearer and answers 401 to others, every request ends well if and only if the client did not start with the empty token |
| TokenLogin.FailedLoginEnds | app/clients/auth.py:109-130 | A failed first login ends the request: nothing is sent after it, no second login, no token kept |

## Left out

- FastAPI routing, dependency injection, OpenAPI text, middleware, response envelopes, cookies, roles, configuration validators, logging: wiring.
- Kafka, RabbitMQ, S3 and payment adapters: the outbox's broker is an abstract log whose publish may fail before or after appending.
- argon2, JWT signing and uuid generation: tokens cannot be forged, and fresh identifiers are inputs that must not have been drawn before.
- SQLAlchemy, PostgreSQL, Redis and croniter internals: only row locks held to the end of the transaction, the version check of an ORM update, SET NX, atomic pipelines and scripts, and key expiry. The clock is exact; the rounding of TTL is not modelled.
- Class methods run one call at a time; what interleaving does is stated on the machines beside them, and the `…Alone` lemmas connect the two.
- The creation of users under an Idempotency-Key: the same runner around another service; the machine carries the money operations.
- Rehydration of the stored response through its Pydantic model: a stored response is replayed as the value it was.
- Search, filtering, sorting, pagination and streaming of users, category creation and the read-only account views: meaning decided by the database.
- Overflow of the 64-bit balance: a refused commit.
- The acquirer of a transaction and the stub acquirer; heartbeat and other sample jobs; cron delays.
- The order in which a set of session ids comes from Redis, and ties in creation times: any order is allowed.
- Registration of users, and the encoding of the two tokens.
- RateLimitBound.SlidingIntervalBound: a tier behind another of its name has no bound of its own, as shown; it is subject to that one's windows.
- RateLimit.WaitingResets: a window that is not positive deletes its counter at once, and a later tier of the same name could open it anew; the pair is excluded.
- MoneyTheorems.Serializable: users and categories may come during a run but not go; deletion, which takes the accounts along, is in the serial runs of `Services`.
- ServiceClasses.UserService.Update: the conflict on a stale version needs a second caller and is in `Versions`.
- RelayJobs.NextKeeps: a worker may run several passes in one stay, one after another, where the job runs one.
- HttpClient.Request: validation of the body against a model and the raw-response mode are not modelled; the content is that of the JSON, or unreadable.
- TokenLogin.TokenClient.Request: one request at a time, so the login lock and its double check have nothing to exclude.
- Versions.NoLostUpdate: statements that bypass the ORM's version check, which no modelled call issues.
- Staleness.FreshExactly: the database read is one snapshot, and the time to live is at least one tick.
