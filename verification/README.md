# Verification of the session, counter and monitoring core

A Dafny model of the parts of this repository whose correctness rests on order, time or concurrency, with proofs
for all inputs, all runs and all interleavings.

## What is modelled

**The session protocol, twice.** `Redis` holds the typed keys, their expiries and the commands of the store.
`Protocol` is the store as it runs in production: any number of calls in flight, one step for each command, MULTI
block, clock reading, tick or call death. `ProtocolInvariant` and `ProtocolLog` hold the invariants;
`SessionSafety`, `SessionLosses`, `SessionIndex`, `SessionLifetime`, `SessionCap`,
`SessionAccess` and `SessionGhosts` the theorems.
`SessionStore` is the class with its methods and loops, one call at a time, shown to implement the abstract table of
`SessionTable`, and `SessionSolo` shows that an uninterrupted call of the machine does to that table what the method
does. `Jwt` adds the access tokens and the request guards, `Handlers` the auth handlers, `Bff` and `AppSession` the
front end's sealed session and its transparent refresh.

**Counters with an expiry.** `CounterStore` has the methods, `LoginFailures`, `RateLimit` and `Lockout` what they mean
over whole runs, the last with any number of concurrent logins.

**The log pipeline.** `Pipeline` is the bounded channel, the producers and the batching consumer as a state machine;
`Shipper` the handle and task with their fields and loop; `Bulk` and `JsonText` the bodies they send.

**Smaller cores.** `ClientIp`, `Metrics`, `Pagination`, `Redirect`.

## Assumptions

- `Uuid::new_v4` and new refresh-token hashes are never reused; identifiers and hashes are opaque, and an access
  token cannot be made without the key.
- The application and Redis share one monotone clock in whole seconds. Every lifetime and window is at least 1 s,
  and none exceeds a 64-bit integer.
- A key is gone at any time at or past its expiry; EXPIRE on a missing key does nothing; HSET creates a missing
  hash; a set emptied by SREM disappears; a MULTI block runs at one instant.
- A Redis or network error ends the call where it stands. The concurrent model lets a call end at any step.
- The sequential classes run one call at a time at one clock reading; `idle <= abs`, which the configuration does not
  check, is a hypothesis where it is needed and only there.

A command that finds nothing and ends its call without a write (an unknown token, a session of somebody else) is not a
step of the concurrent machine, since it changes no key.

## Where code and comments differ

The model follows the code.

- The absolute cap stops rotations, not the session, although `backend/SESSIONS.md` section 2 calls it a hard cap. It
  holds for the session itself exactly when idle is 1 s (`SessionCap.CapHoldsExactly`); otherwise a session can live to
  created + abs + idle (`SessionCap.LongestLife`), no longer when writes follow their clock reading at once
  (`SessionLifetime.SessionLifetimeBound`), and past the cap in any case when they do not
  (`SessionCap.LateWriteOutlivesCap`).
- `backend/SESSIONS.md` section 4 says the guard checks that the `sess:{sid}` key exists. The code reads `user_id`,
  and it has to: a rotation that races a revocation writes the hash again (`SessionGhosts.HashWithoutOwner`), exactly
  when it finds the hash gone (`SessionGhosts.GhostAppearsExactly`).
- The lockout comment (backend/src/session/store.rs:365-367) says attempts extend the lock. The handler refuses a
  locked account before it records anything, so only attempts already past the check do (`Lockout.LockHolds`,
  `Lockout.LateFailures`).
- The rate limiter is a fixed window in one comment (backend/src/session/store.rs:14) and in `backend/SESSIONS.md`
  section 7, a sliding one in another (backend/src/session/store.rs:399). Every call re-arms it, refused ones too, so
  it counts bursts (`RateLimit.AcceptedExactly`).
- `revoke_others` counts stale ids as sessions revoked (`SessionStore.SessionStore.RevokeOthers`).
- The front end's margin of 30 s is taken from a deadline in milliseconds while the token expires on a second: the
  margin on the token is only more than 29 s. `Bff.MarginHoldsExactly` says when it is 30 s, and
  `Bff.MarginCanBeBelowThirtySeconds` gives a run where it is not.
- A call that dies after its GETDEL takes the refresh token with it for good: the session stays alive without a token
  until it expires or is revoked (`SessionLosses.LossIsReachable`, `SessionLosses.StrandedForGood`,
  `SessionLosses.StrandedUntilExpiry`).

## Model

| member | source | states |
|---|---|---|
| RedisKeys.SpellingIsInjective | backend/src/session/store.rs:72-80 | no two of the five families of keys can collide, whatever text the identifiers hold |
| Redis.CreateMultiEffect | backend/src/session/store.rs:133-169 | the MULTI block of `create` leaves three whole keys, each with its own expiry, and touches no other key |
| Redis.RotateMultiEffect | backend/src/session/store.rs:212-236 | the MULTI block of `rotate` keeps the owner and creation time it finds (none, if the hash is gone), re-arms hash, pointer and index, and adds nothing to the index |
| Redis.DeleteMultiEffect | backend/src/session/store.rs:333-345 | the MULTI block of `delete` removes the hash, the token seen by the HGET before it, and the id from one index; no index gains an id or a later expiry |
| Redis.SRemEffect | backend/src/session/store.rs:272-275 | the SREM of `list` changes one index only, and removes one id |
| ProtocolInvariant.Keeps | backend/src/session/store.rs:121-347 | every command, MULTI block, clock reading, tick and call death keeps the invariant of keys, calls in flight and history, never gives a dead session an owner again, and never changes who a session was created for |
| ProtocolInvariant.KeysCreate | backend/src/session/store.rs:133-169 | `create` run between any other commands keeps the agreement of hashes, pointers and indexes |
| ProtocolInvariant.KeysRotate | backend/src/session/store.rs:205-236 | `rotate` run between any other commands keeps it too, also when the hash expired or was deleted after the HGETALL |
| ProtocolInvariant.KeysDelete | backend/src/session/store.rs:329-347 | so does the MULTI block of `delete`, with a token read earlier by its HGET |
| ProtocolInvariant.KeysGrab | backend/src/session/store.rs:185-188 | a GETDEL moves the capability of a session from its key to the calling request |
| ProtocolLog.KeepsLog | backend/src/session/store.rs:177-260 | every step keeps the facts about the log: events true for ever, no token taken, consumed or issued twice, one chain of tokens a session, and an outcome for every token taken |
| ProtocolLog.KeepsSettled | backend/src/session/store.rs:194-260 | a taken token stays accounted for: in the hands of a call, replaced, lost with its call, or its session dead |
| SessionSafety.RevocationIsPermanent | backend/src/session/store.rs:329-347 | a session that was created and has no owner any more (deleted or expired) has none in any later state of any interleaving, and no request is accepted for it again |
| SessionSafety.RevokedTokensRejected | backend/src/middleware/auth.rs:48-62 | the request guard rejects every access token of a dead session now and in every later state, at any clock reading and for any user table |
| SessionSafety.KilledIsDead | backend/src/session/store.rs:251-260 | a revocation or logout is complete at the MULTI block of its `delete`: from there on the session has no owner |
| SessionSafety.LateRotations | backend/src/session/store.rs:194-238 | after the death of a session at most one rotation can still report success, one whose HGETALL came before the death, and it consumes a token taken before; a token taken later is always refused |
| SessionSafety.CapabilityConserved | backend/src/session/store.rs:185-236 | for each session, in every reachable state, token keys pointing at it plus calls holding a token taken from it add up to at most 1 |
| SessionSafety.PointerAgreement | backend/src/session/store.rs:147-159 | a token key and the hash of its session name each other and expire at the same instant |
| SessionSafety.DeleteLeavesNoToken | backend/src/session/store.rs:329-346 | a `delete` that found the hash, with no rotation of the session between its HGET and its MULTI block, leaves no token key for the session |
| SessionSafety.DeleteLeavesNoTokenExactly | backend/src/session/store.rs:329-346 | it leaves none if and only if there was none left or no rotation of the session committed in between |
| SessionSafety.SingleWinner | backend/src/session/store.rs:184-188 | over a whole run a token is obtained by at most one `rotate` or `logout` |
| SessionSafety.LinearHistory | backend/src/session/store.rs:177-239 | each successful rotation consumes the newest token of its session; no token is consumed twice or given out twice, so the rotations form one chain |
| SessionSafety.CurrentTokenIsNewest | backend/src/session/store.rs:212-226 | the token key of a session holds the newest token of that chain |
| SessionSafety.RaceOutcome | backend/src/handlers/auth.rs:145-201 | once a taken token is in nobody's hands, its session is dead, or it has exactly one successor, or its taker died holding it |
| SessionLosses.RaceOutcomeExactly | backend/src/handlers/auth.rs:145-201 | for a session that is still alive this is an equivalence: exactly one successor if and only if no call died holding the token |
| SessionLosses.LostForGood | backend/src/session/store.rs:185-188 | a token whose taker died has no successor in the whole run, and its session has no token key and no holder from then on |
| SessionLosses.StrandedForGood | backend/src/session/store.rs:177-260 | a session with no token key and no holder never has one again and is never rotated again; its hash keeps its expiry or goes |
| SessionLosses.StrandedUntilExpiry | backend/src/session/store.rs:177-260 | such a session is alive at most until the expiry its hash has |
| SessionLosses.LossIsReachable | backend/src/session/store.rs:185-197 | under every configuration a reachable state has a live session that lost its token this way |
| SessionGhosts.HashWithoutOwner | backend/src/session/store.rs:194-236 | a reachable state where a revoked session has a hash and a token key again, but no owner: the guard is right to read `user_id` and would be wrong to test that the key exists |
| SessionGhosts.GhostAppearsExactly | backend/src/session/store.rs:212-236 | in reachable states a hash without owner appears at a step if and only if that step is the MULTI block of a rotation whose hash is gone |
| SessionIndex.IndexAgreementExactly | backend/src/session/store.rs:160-167 | every owned live session is in its owner's index, which does not expire before it, in every reachable state, if and only if idle <= abs |
| SessionIndex.KeepsListed | backend/src/session/store.rs:227-234 | with idle <= abs every step keeps that agreement, the separate SREM of `list` included |
| SessionIndex.IndexHoldsOwnSessions | backend/src/session/store.rs:335-345 | an index never lists a live session of somebody else, whatever the lifetimes |
| SessionIndex.IndexExpiresFirst | backend/src/session/store.rs:164-167 | with abs < idle, a run after which an index has expired under a live session |
| SessionLifetime.SessionLifetimeBound | backend/src/session/store.rs:203-230 | upper bound: an owned session expires by created + abs + delay + idle, where `delay` bounds the time from a clock reading to its write; with no such bound, by its creation write + idle or before created + abs + 2 idle |
| SessionCap.LongestLife | backend/src/session/store.rs:203-230 | the bound is reached: for every abs and every idle >= 2 a run with every write at the instant of its clock reading gives an owned session that expires at created + abs + idle |
| SessionCap.CapHoldsExactly | backend/src/session/store.rs:205-209 | over runs with every write at the instant of its clock reading, no session is ever alive past created + abs if and only if idle is 1 s |
| SessionCap.LateWriteOutlivesCap | backend/src/session/store.rs:129-169 | with a creation that writes late, a session is alive past created + abs under every configuration |
| SessionLifetime.AcceptedLifetimeBound | backend/src/auth/jwt.rs:76-96 | no accepted request had its token checked after created + abs + delay + access_ttl + 5 s, however often the session was refreshed, and its subject is the user the session was created for (section 4.1.4 of RFC 7519) |
| SessionLifetime.AcceptedWasCreated | backend/src/middleware/auth.rs:51-57 | every accepted request is for a session that `create` made, so that bound covers all of them |
| SessionAccess.LiveTokenIsAccepted | backend/src/middleware/auth.rs:48-57 | in every reachable state a request with an issued token in time is accepted if its subject owns the session at that instant |
| SessionAccess.CheckDecidesExactly | backend/src/session/store.rs:243-247 | the owner check accepts exactly a session that its subject owns at that instant, and changes no key |
| SessionAccess.AcceptanceIsReachable | backend/src/middleware/auth.rs:34-70 | under every configuration with a lifetime for access tokens a login leads to an accepted request |
| Jwt.VerifyAcceptsExactly | backend/src/auth/jwt.rs:46-97 | an issued token is accepted exactly under the same key and issuer and until exp + 5 s, never with another `typ`, and gives back subject, session, role, id and times it was issued with |
| Jwt.TokenRoleIsIgnored | backend/src/middleware/auth.rs:59-95 | the role in a token has no influence on either guard; an admin passes by the current user row, with a live session of his own |
| Jwt.AdminPassesExactly | backend/src/middleware/auth.rs:78-95 | the admin guard passes exactly a verified token whose subject owns its live session and is an admin in the user table now |
| SessionTable.RotateSucceedsExactly | backend/src/session/store.rs:177-239 | a rotation succeeds exactly on the current token of a live session not older than abs |
| SessionTable.RotateMovesTheToken | backend/src/session/store.rs:177-239 | afterwards the old token finds nobody, the new one finds the same session with the same creation time, and no other session changed |
| SessionTable.RotateEffect | backend/src/session/store.rs:194-238 | row by row: a success gives the session that holds the token the new token and the present as last use and changes nothing else; a refusal removes at most that session, which is then older than abs |
| SessionTable.LogoutEffect | backend/src/session/store.rs:251-260 | exactly the session that holds the token is gone, every other row is as it was |
| SessionTable.LogoutSpendsTheToken | backend/src/session/store.rs:251-260 | after a logout a rotation of the token is refused and changes nothing |
| SessionTable.RevokeEffect | backend/src/session/store.rs:297-306 | the session is gone if the user owns it; no other row, and no row of another user, changes |
| SessionTable.RevokeOthersEffect | backend/src/session/store.rs:310-325 | what stays is every session of other users, and `keep` |
| SessionTable.CreateEffect | backend/src/session/store.rs:121-172 | one new row with its owner, token, user agent and address, created and last used now; no other row changes |
| SessionTable.ExpireEffect | backend/src/session/store.rs:150-159 | time removes exactly the sessions not used for idle seconds |
| SessionStore.SessionStore.Wait | backend/src/session/store.rs:150-167 | time turns the keys and their three expiries into one rule: a session lives while now < last use + idle |
| SessionStore.SessionStore.Create | backend/src/session/store.rs:121-172 | `create` adds one row to the abstract table |
| SessionStore.SessionStore.Rotate | backend/src/session/store.rs:177-239 | `rotate`, with its early returns and its deletion past abs, is the abstract rotation, answer included |
| SessionStore.SessionStore.OwnerIfActive | backend/src/session/store.rs:243-247 | the owner of a live session, and nobody for any other id |
| SessionStore.SessionStore.Logout | backend/src/session/store.rs:251-260 | a session is still live afterwards exactly if it was and does not hold the token; live ones are unchanged |
| SessionStore.SessionStore.List | backend/src/session/store.rs:263-293 | the live sessions of the index once each, with the creation time, last use, user agent and address of their rows (none for an empty text), in descending order of last use; the index is left equal to them and every other key alone; with idle <= abs they are all the live sessions of the user |
| SessionStore.SessionStore.CollectLive | backend/src/session/store.rs:267-290 | the loop of `list`, with its SREM of stale ids: each entry shows what the row of its session holds |
| SessionStore.SummaryShowsRow | backend/src/session/store.rs:277-289 | a summary shows creation time, last use and texts of the session, an empty text as none |
| SessionStore.SortNewestFirst | backend/src/session/store.rs:291-292 | the result is a permutation of the input in descending order of last use |
| SessionStore.SessionStore.Revoke | backend/src/session/store.rs:297-306 | answers whether the user owns the session; if so exactly that session is removed, if not nothing changes; no session of another user is ever lost |
| SessionStore.SessionStore.RevokeOthers | backend/src/session/store.rs:310-325 | the user keeps `keep` only, nobody else loses a session, the count is the size of the index without `keep`, and it equals the number of sessions killed exactly when no id was stale |
| SessionStore.SessionStore.DeleteBut | backend/src/session/store.rs:314-323 | the loop of `revoke_others` |
| SessionStore.SessionStore.Delete | backend/src/session/store.rs:329-347 | `delete` removes the hash, every token key of the session and its place in the index |
| SessionStore.KeysAfterDelete | backend/src/session/store.rs:329-347 | `delete` restores the agreement of hashes, pointers and indexes that the GETDEL before it broke |
| SessionStore.KeysAfterRotate | backend/src/session/store.rs:185-236 | so does the MULTI block of `rotate` after its GETDEL |
| SessionStore.IndexIsLiveSet | backend/src/session/store.rs:263-276 | the live ids of an index are sessions of its user, and with idle <= abs all of them |
| SessionSolo.CreateAlone | backend/src/session/store.rs:121-172 | a `create` of the concurrent machine that nobody interrupts adds one row to the abstract table, as the method does |
| SessionSolo.RotateAlone | backend/src/session/store.rs:177-239 | an uninterrupted `rotate` of the machine is the abstract rotation, answer included, past the absolute age too |
| SessionSolo.LogoutAlone | backend/src/session/store.rs:251-260 | an uninterrupted `logout` of the machine removes exactly the session that holds the token |
| SessionSolo.RevokeAlone | backend/src/session/store.rs:297-306 | an uninterrupted `revoke` of the machine by the owner removes exactly that session |
| SessionSolo.RevokeIsForTheOwner | backend/src/session/store.rs:299-304 | the machine lets a `revoke` past its check exactly for a live session of the user |
| SessionSolo.RevokeOthersAlone | backend/src/session/store.rs:310-325 | an uninterrupted `revoke_others` of the machine removes the index without `keep` from the table, which with idle <= abs is the abstract operation |
| SessionSolo.ListAlone | backend/src/session/store.rs:263-276 | an uninterrupted `list` of the machine changes no session and leaves the live ids of the index, with idle <= abs all the sessions of the user |
| CounterStore.CounterStore.IsLocked | backend/src/session/store.rs:352-356 | locked exactly when as many failed logins as the threshold still count: failures since the last success, in one burst with no gap of a whole window, until the window of the last is over |
| LoginFailures.CounterIsRecent | backend/src/session/store.rs:352-383 | for any history of failures, each with its own window, the counter that Redis shows is the number that still count |
| LoginFailures.RecentExactly | backend/src/session/store.rs:352-383 | the failures that count are those since the last pause of a whole window, until a window after the last one, and none from then on |
| CounterStore.CounterStore.RecordLoginFailure | backend/src/session/store.rs:368-383 | one failure more in the history of the account, the whole window re-armed, the count returned is the number of failures that count, other accounts untouched |
| CounterStore.CounterStore.ClearLoginFailures | backend/src/session/store.rs:386-390 | no failures left, other accounts untouched |
| CounterStore.CounterStore.AuthRateLimitOk | backend/src/session/store.rs:401-412 | the answer is that of the counting rule over the whole history of the key, and goes on record with the request |
| CounterStore.AtMostMaxLetThrough | backend/src/session/store.rs:401-412 | whatever calls were made, any interval one window long holds at most the maximum of requests of a key that were answered yes |
| CounterStore.RefusalLastsUntilGap | backend/src/session/store.rs:397-412 | after a no, every answer is no until a gap of a whole window, and the answer after the gap is yes |
| CounterStore.AllowsForetells | backend/src/session/store.rs:401-412 | the condition used for a request made now is the counting rule |
| RateLimit.AcceptedExactly | backend/src/session/store.rs:401-412 | the same, for any run of requests of one key, accepted or refused |
| RateLimit.FirstOfBurstAccepted | backend/src/session/store.rs:401-412 | after a pause of a whole window the first `max` requests are accepted and the ones after them are not, until the next pause |
| RateLimit.AtMostMaxPerWindow | backend/src/session/store.rs:401-412 | any half-open interval one window long holds at most the maximum of accepted requests |
| RateLimit.RefusedUntilGap | backend/src/session/store.rs:397-412 | after a refusal every request is refused until a gap of at least one window, and the request after the gap is accepted |
| RateLimit.KeysAreIndependent | backend/src/handlers/auth.rs:241-253 | in a run over many keys each key depends on its own requests only |
| Lockout.FailuresBounded | backend/src/handlers/auth.rs:94-126 | with threshold N and at most K logins in flight, failures recorded since the counter was last zero never exceed N - 1 + K; with N <= 0 none is ever recorded |
| Lockout.BoundIsReached | backend/src/handlers/auth.rs:94-126 | some run reaches N - 1 + K |
| Lockout.LockHolds | backend/src/handlers/auth.rs:96-105 | while the account is locked and no login is past its check, refused attempts change nothing: the lock stays as it is until one window after the last recorded failure |
| Lockout.LateFailures | backend/src/handlers/auth.rs:96-126 | with p logins past their check the lock is re-armed at most p times, and holds all along, until the counter is next back to zero |
| Lockout.LockEnds | backend/src/session/store.rs:375-381 | one window after the last recorded failure the counter is gone and the next login is let through |
| Lockout.CheckDecidesExactly | backend/src/handlers/auth.rs:96-105 | a login goes on exactly when fewer failures than the threshold count; the check changes no counter |
| Lockout.SuccessClears | backend/src/handlers/auth.rs:125-126 | a right password sets the counter to zero and opens the account |
| Lockout.FailureCounts | backend/src/handlers/auth.rs:107-112 | a wrong password counts once and re-arms the window, which lasts to its last second |
| Handlers.AuthHandlers.Login | backend/src/handlers/auth.rs:74-138 | which of 429, 401 and success a login gets; the request is counted once against its key; success creates one session and clears the failures of the account, a wrong password records one, a refusal of a locked account leaves its counter, and no other account's counter changes |
| Handlers.AuthHandlers.LoginAllowed | backend/src/handlers/auth.rs:81-138 | the same past the rate limit |
| Handlers.AuthHandlers.EnforceAuthRateLimit | backend/src/handlers/auth.rs:241-253 | the request passes exactly by the counting rule over the history of its key; request and answer go on record; no failure counter changes |
| Handlers.AuthHandlers.TryPassword | backend/src/handlers/auth.rs:94-126 | check, then password, then record or reset, for this account and no other |
| Handlers.AuthHandlers.StartSession | backend/src/handlers/auth.rs:207-227 | one new session and an access token bound to it |
| Handlers.AuthHandlers.RefreshSession | backend/src/handlers/auth.rs:145-181 | rotation, user reload, access token for the same session; if the user is gone the rotation stands and the answer is 401 |
| Handlers.AuthHandlers.LogoutSession | backend/src/handlers/auth.rs:187-201 | exactly the session that holds the token of the cookie is gone; without a cookie nothing changes |
| Handlers.RefreshAnswersExactly | backend/src/handlers/auth.rs:157-174 | a refresh succeeds exactly for the current token of a live session not older than abs whose user exists; the access token is issued now for that user, session and current role, and the session holds the new token |
| Handlers.GuardOverTable | backend/src/middleware/auth.rs:48-62 | the guard lets a token through exactly when it verifies, its session is a live session of its subject, and the subject still exists |
| Handlers.RefreshedTokenWorks | backend/src/handlers/auth.rs:157-180 | a refreshed access token opens the guard as the user and session of the refresh token, until expiry plus leeway, the end of the session or the removal of the user |
| Bff.CookiesStayInStep | frontend/lib/auth.ts:36-100 | over every run from an invariant world, such as the empty one (`Bff.FreshIsInStep`), a sealed cookie holds the current refresh token of its backend session, or that session is dead and nobody holds the token; no two cookies share a session |
| Bff.LogInOpensSession | frontend/lib/auth.ts:35-51 | a login opens a session of the user, seals its token and id in the cookie, and the next request gets its access token |
| Bff.LogOutEnds | backend/src/handlers/auth.rs:187-201 | logging out ends the session of the cookie and the cookie, and nothing else |
| Bff.RevokeOneEffect | backend/src/session/store.rs:297-306 | revoking one session ends it if it is the user's own, and no other session or cookie |
| Bff.RevokeRestEffect | backend/src/session/store.rs:310-325 | revoking the rest ends every session of the user but one, and no session of anybody else |
| Bff.NullOnlyWhenRefused | frontend/lib/auth.ts:66-99 | on an authenticated session `getAuthContext` returns null exactly when the margin is used up and the backend refuses (session dead, older than abs, or user gone), and destroys the cookie exactly then |
| Bff.ReturnedTokenIsFresh | frontend/lib/auth.ts:74-92 | a returned token was issued this second or has more than 29 s of validity left, is for the user and session of the cookie, and passes the backend's check now |
| Bff.MarginHoldsExactly | frontend/lib/auth.ts:32-81 | with the margin left the sealed token is returned and nothing changes; it has more than 30 s left exactly when the sealed deadline, cut down to the second, is more than 30 s away |
| Bff.MarginCanBeBelowThirtySeconds | frontend/lib/auth.ts:32-42 | a run from an empty world in which that condition fails: a token is returned unrefreshed with less than 30 s of validity left |
| AppSession.AppSession.GetAuthContext | frontend/lib/auth.ts:66-100 | fields, cookie and backend move together as the model of the BFF says |
| AppSession.AppSession.EstablishSession | frontend/lib/auth.ts:36-51 | all four fields are set from the answer and sealed |
| AppSession.AppSession.constructor | frontend/lib/session.ts:85-108 | the session starts from the sealed data, and is authenticated exactly when there is some |
| Pipeline.Keeps | backend/src/monitoring/shipper.rs:32-80 | each step of a producer or of the consumer keeps conservation |
| Pipeline.AlwaysConserved | backend/src/monitoring/shipper.rs:32-124 | in every interleaving, batches sent, then buffer, then channel are the accepted documents in order; accepted + reported drops + pending drops = calls; every batch has 1 to batch_size documents |
| Pipeline.StoppedMeansAllSent | backend/src/monitoring/shipper.rs:68-72 | when the consumer has stopped, every accepted document was in exactly one batch, in order |
| Pipeline.DrainStops | backend/src/monitoring/shipper.rs:61-72 | once the senders are gone, receiving what is left stops the consumer with nothing lost |
| Pipeline.DropsAreRefusals | backend/src/monitoring/shipper.rs:32-36 | drops, reported or pending, are exactly the calls that found the channel full; every other call is accepted |
| Pipeline.RoomMeansAccepted | backend/src/monitoring/shipper.rs:32-36 | if every call finds room, exactly the documents of the calls are accepted, in order, and none is dropped |
| Pipeline.SendsExactly | backend/src/monitoring/shipper.rs:61-77 | a batch is sent exactly when a document fills the buffer or a tick or the end finds something in it, and then the whole buffer goes |
| Pipeline.BatchesAreFull | backend/src/monitoring/shipper.rs:61-67 | without a tick or the end every batch sent is full |
| Shipper.Shipper.Record | backend/src/monitoring/shipper.rs:32-36 | with room in the channel the document is queued last and no drop counted; with none the channel stays and one drop is counted |
| Shipper.Shipper.Flush | backend/src/monitoring/shipper.rs:84-111 | an empty buffer sends nothing; otherwise one body frames exactly the buffered documents in order |
| Shipper.Shipper.ReportDropped | backend/src/monitoring/shipper.rs:115-124 | the count is read and reset at once |
| Shipper.Shipper.OnEvent | backend/src/monitoring/shipper.rs:61-67 | the first document of the channel joins the buffer; a full buffer goes out as one body that frames it, a smaller one stays |
| Shipper.Shipper.OnTick | backend/src/monitoring/shipper.rs:74-77 | what is buffered goes out, the drop count is reset, the channel stays |
| Shipper.Shipper.TakeTurn | backend/src/monitoring/shipper.rs:59-79 | each turn performs exactly its actions: a producer's document is recorded, a ready channel is received or found closed, a tick flushes and reports |
| Shipper.Shipper.Run | backend/src/monitoring/shipper.rs:48-80 | the state reached is that of every turn of the schedule, in full and in order, up to the turn that stops the task; every body frames its batch, and when the loop ends all accepted documents were sent in order |
| Shipper.EveryProducerCounts | backend/src/monitoring/shipper.rs:48-80 | while the handles are there every producer of the schedule makes its call and the task does not stop |
| Shipper.ShutdownDrains | backend/src/monitoring/shipper.rs:68-72 | once the handles are gone, one turn for each queued document and one more stop the task with everything sent |
| Bulk.ToBulkNdjson | backend/src/monitoring/event.rs:135-145 | the loop builds the specified text, which frames the documents |
| Bulk.FramingRoundTrip | backend/src/monitoring/event.rs:135-145 | splitting a body on newlines gives back the (action, document) pairs, two lines a document and nothing else, and the body ends with a newline |
| Bulk.BodyDeterminesDocs | backend/src/monitoring/event.rs:135-145 | a body frames one list of documents only: day and fields of each can be read back |
| Bulk.SameIndexSameDay | backend/src/monitoring/event.rs:90-98 | two documents go to the same index exactly when they carry the same date |
| Bulk.IndexNameSpellsTheDate | backend/src/monitoring/event.rs:90-98 | the name is the prefix and the date in decimal digits, four, two and two, with its separators |
| Bulk.ActionLineText | backend/src/monitoring/event.rs:138-139 | the action line is the `create` action on that index, character by character |
| JsonText.RenderOneLine | backend/src/monitoring/event.rs:139-142 | compact JSON text holds no raw newline, whatever strings it carries |
| JsonText.RenderInjective | backend/src/monitoring/event.rs:138-141 | no two JSON values share a text |
| ClientIp.PrefixIndependence | backend/src/middleware/client.rs:77-98 | with k >= 1 trusted hops and k entries appended by proxies, the address is the first appended entry if it parses and the peer otherwise, whatever readable text came before |
| ClientIp.ForgedTextKeepsTheKey | backend/src/middleware/client.rs:100-124 | no forged text changes the quota key of a request |
| ClientIp.ShortChainGivesPeer | backend/src/middleware/client.rs:74-97 | zero hops aside, a short chain, an unreadable header or none gives the peer |
| ClientIp.NoHopsGivesPeer | backend/src/middleware/client.rs:78-80 | without trusted hops no header is believed |
| ClientIp.SplitJoins | backend/src/middleware/client.rs:83-84 | the parts are what lies between the commas, all of it |
| ClientIp.TrimIsMiddle | backend/src/middleware/client.rs:85 | trimming takes all spaces and tabs off both ends and nothing else |
| ClientIp.EntriesAreTrimmed | backend/src/middleware/client.rs:83-87 | no entry of a chain is empty or has a blank at either end |
| Metrics.Metrics.ObserveRequest | backend/src/monitoring/metrics.rs:101-119 | after one more request the registry holds exactly what all observations add up to |
| Metrics.Metrics.Observe | backend/src/monitoring/metrics.rs:115-118 | the histogram of one key moves, or appears, and every other stays as it was |
| Metrics.Histogram.Observe | backend/src/monitoring/metrics.rs:63-71 | one more in every bucket whose bound is not below the value, the value in the sum, one in the count, in place |
| Metrics.ObservationCounts | backend/src/monitoring/metrics.rs:101-118 | one request counts once, in the histogram of its own method and path, or of `other` for unknown ones, and in no other |
| Metrics.ObservationIsCounted | backend/src/monitoring/metrics.rs:107-114 | and once in the counter of its method, path and status, and in no other |
| Metrics.OutcomeIsTheClass | backend/src/monitoring/event.rs:19-25 | the outcome is the hundred of the status |
| Metrics.BucketsAreCumulative | backend/src/monitoring/metrics.rs:47-72 | bucket i counts the observations within bound i; buckets never decrease and none exceeds the count |
| Metrics.CountersAgreeWithHistogram | backend/src/monitoring/metrics.rs:106-118 | the counters of a (method, route), over all statuses, add up to its histogram count |
| Metrics.CounterKeyIsDetermined | backend/src/monitoring/event.rs:19-25 | no two counters share method, route and status |
| Metrics.CountsByLabel | backend/src/monitoring/metrics.rs:171-199 | the histogram of a known (method, route) counts the requests of that very method and path, `other` counts all the unknown ones, and no other label ever counts anything |
| Metrics.RegistryIsBounded | backend/src/monitoring/metrics.rs:74-78 | the registry holds at most 80 histograms, whatever has been observed |
| Pagination.OffsetNeverNegative | backend/src/models/pagination.rs:37-41 | the offset is the exact product capped at the largest 64-bit integer, and never negative |
| Pagination.DefaultPages | backend/src/models/pagination.rs:20-28 | what is not asked for is page 1 and 20 rows a page |
| Pagination.PagesArePrefix | backend/src/db/mod.rs:135-158 | the first n pages are the first n * size rows of a fixed ordered list |
| Pagination.PagesPartition | frontend/app/(app)/admin/users/page.tsx:55 | pages 1 to the page count give the whole list, each row once and in order |
| Pagination.PageIsEmptyExactly | backend/src/models/pagination.rs:30-41 | a page of a non-empty list is empty exactly when it is past the page count, also when the offset saturates |
| Redirect.ResultIsSafe | frontend/lib/redirect.ts:34-83 | on every input the result is in the list and free of a leading //, control characters, backslashes, encoded separators, dot segments, ? and # |
| Redirect.ResultsAreExactlySafe | frontend/lib/redirect.ts:34-83 | the possible results are exactly the safe paths |
| Redirect.ResultsArePlainlySafe | frontend/lib/redirect.ts:34-83 | the same said character by character, without the checks of the code: the listed paths, no control character, backslash, ? or #, none of the five percent codes, no segment of one or two dots between slashes |
| Redirect.Idempotent | frontend/lib/redirect.ts:34-83 | checking twice changes nothing |
| Redirect.QueryIsDropped | frontend/lib/redirect.ts:57-66 | a query or fragment after a safe path is dropped, unless it holds a refused character or makes the text too long, which gives the default |
| Redirect.ResultIsCutOrDefault | frontend/lib/redirect.ts:63-82 | the result is the default or the text up to its first ? or # |
| Redirect.CutKeepsChecks | frontend/lib/redirect.ts:47-66 | every character check is preserved by the cut |

## Left out

- SessionLifetime.AcceptedLifetimeBound: bounds the instant of the token check; the owner check of the same request
  comes later and is bounded by the life of the session.
- SessionSafety.RevocationIsPermanent: the user table is not part of the concurrent machine, so its accepted requests
  include some that the last check of the guard would refuse.
- SessionStore.SessionStore.List: the order of sessions last seen in the same second is not stated, as the order in
  which SMEMBERS gives the ids is unspecified; in the concurrent machine `list` is present with its reads and SREM but
  without the summaries it returns.
- Redirect.ResultIsSafe: a `char` is one UTF-16 code unit, and the repeated slashes below `/admin/` that the code
  accepts are accepted.
- ClientIp.PrefixIndependence: only the first `X-Forwarded-For` header is read, as in the code; IP address parsing is
  a parameter.
- Metrics.Metrics.ObserveRequest: latencies are reals, so the rounding of the sum is not captured; the mutex and the
  text rendering are left out.
- Bulk.SameIndexSameDay: years 0 to 9999; the calendar arithmetic behind a timestamp is the `time` crate's.
- Bulk.ActionLineText: index names of plain characters; quotes, backslashes and control characters in the prefix
  would be escaped, which `JsonText.RenderInjective` covers.
- JsonText.RenderInjective: a number is any non-empty text over the characters of JSON numbers; number formatting is
  `serde_json`'s.
- Pipeline.AlwaysConserved: a batch counts as sent when the request is made; a failed request loses it, as the code
  says. The fairness of `select!` is not modelled.
- Bff.CookiesStayInStep: one request at a time, a reachable and unthrottled backend and no lost answer; two tabs that
  refresh at once, the age limit of the cookie itself and the profile fields of the session are not captured.
- Pagination.PagesPartition: the list is fixed between two pages and its order is total, which `ORDER BY created_at`
  alone does not give for users created at the same instant.
- Handlers.AuthHandlers.Login: one login at a time; concurrent logins are module `Lockout`. The lookup of the account
  and the comparison of the password are parameters.
- Parsing of stored identifiers and times: a value written by the store is always readable, so these error paths
  cannot be taken from any modelled state.
- Registration, profile and admin handlers, request validation, configuration loading, cookie attributes, security
  headers: constants, SQL or one-branch facts.
- Redis networking, SQL, HTTP routing, TLS, the OpenSearch client, Argon2, SHA-256, HMAC and cookie sealing: library
  code, abstracted as said above.
- Timing equalisation in `login` and the in-memory `tower_governor`: not visible as functional behaviour here.
- React pages, loggers, health checks, dashboards, deployment files.
