# Credential, quota and token protocols of the DataAPI

A Dafny model of the state machines that guard the DataAPI, with proofs of what
they keep over every run: refresh-token families, rate limiters, accounts and
API keys, service clients and their secrets, scopes and access tokens, rotation
of the signing secrets, delegation policy, and the smaller text-handling cores
(generated queries, the .env printer, the admin gateway's paths).

`dafny verify dfyconfig.toml` checks everything.

## How it is laid out

| file | what it holds |
|---|---|
| `Base.dfy`, `Text.dfy` | Option and Result; strip, split, join, numerals, order on strings |
| `RefreshTable.dfy` | the rows of `iam.refresh_tokens`, families, what each statement does to them |
| `Sessions.dfy`, `Draws.dfy` | sessions with staged rows, commit and rollback; random draws that are repeated while they collide |
| `RefreshRepository.dfy`, `AuthTokens.dfy` | the repository and the token service as classes, a possible failure at each statement; the recursive family query |
| `RefreshRuns.dfy`, `RefreshRaces.dfy` | any number of refresh calls, interleaved transaction by transaction |
| `TokenLifecycle.dfy` | issuance followed by any number of refreshes |
| `SlidingWindow.dfy`, `SubjectRateLimit.dfy` | the deque of admissions, the per-subject limiter |
| `IpRateLimit.dfy`, `IpRateRuns.dfy`, `IpRateRetries.dfy` | the per-IP limiter with Redis as a state machine, its exact guarantees over runs, when it talks to Redis |
| `IpRateMiddleware.dfy` | the code that runs it |
| `KeyFormat.dfy` | the text of a personal API key |
| `Accounts.dfy`, `AccountService.dfy` | accounts, keys and audit log as one state machine; the code that runs it |
| `ServiceClients.dfy`, `ProvisioningScript.dfy` | clients, scopes and secrets as one state machine; the script that runs it |
| `Scopes.dfy`, `Tokens.dfy`, `RequestedScopes.dfy` | coverage, minting and decoding, from a request to the routes it opens |
| `SigningKeys.dfy` | rotation of the secrets and what it does to tokens in use |
| `Policy.dfy` | delegation grants, enforcement, the generated lock query |
| `QueryBuilder.dfy`, `EnvFile.dfy`, `AdminGateway.dfy` | filters to SQL clauses, the .env parser and printer, forwarded admin paths |

Where the code changes state, the model is a class whose methods are proved
equal to a function on values; what is promised is then proved about that
function, over all runs. Code made of expressions is modelled as functions. Each
answer and each refusal is also stated by the fields of the rows and claims it
depends on, without the functions that compute it.

## What is taken for granted

- Each committed repository call, SQL function or script is one atomic step. A
  refresh is several steps (lookup, then revocation or rotation), and anything
  may happen between them. A rotation holds its row's lock.
- SHA-256 and bcrypt are injective; a token verifies under exactly the key that
  signed it. Identifiers, secrets and random prefixes are parameters; a
  collision takes the branch the code takes on a violated constraint.
- A fault parameter stands for an `SQLAlchemyError` at the statement it counts,
  or for a Redis call that raises. A statement that fails changes nothing.
- Clocks never run backwards, and Redis expires keys by the same clock. Counters
  survive reconnects; other processes count against them at any time, and a key
  expires 65 seconds after it was created if its EXPIRE arrived.
- The per-IP limiter runs without interruption between check and append, and so
  does the per-subject limiter.
- White space is blank, tab, line feed and carriage return; case mapping is
  ASCII; text files end their lines with a line feed.
- NULL, `None` and the empty string are told apart only where the code does.

## What turned out not to hold

- *Revoking a family revokes every descendant* (the docstring at
  `app/repositories/sql_refresh_tokens.py:147-148`) depends on the statement
  being atomic. Run in two phases it leaves a live token exactly when a member is
  rotated in between and the family is not dead by then
  (`RefreshTable.LateRevokeKillsFamilyIffNoneRotated`);
  `RefreshTable.LateRevokeCanMissARotation` is such a run. The row that is missed
  is a descendant, so the next replay kills it.
- *A token opens only what the client's grants cover* holds, for grants within the
  scope grammar, exactly when none is a wildcard. A requested scope is compared
  whole with the grants, but cut at blanks once it is in the token:
  `RequestedScopes.WildcardRequestCanExceedItsGrant` is an instance,
  `RequestedScopes.RequestsStayWithinIffNoWildcard` the condition on the grants,
  `RequestedScopes.RoutesNeverExceedGrants` the one on a single request.
- *An unchanged client can always refresh* fails for scopes that only a
  wildcard grant covers: issuance matches wildcards, a refresh intersects
  literally. `TokenLifecycle.WildcardOnlyRequestIsIssued` is a case,
  `TokenLifecycle.IssuedTokenRefreshesIffALiteralGrant` the exact condition for
  any grants and any request.
- *What a covered scope covers is covered* fails for a grant ending in two
  stars, which the scope grammar admits: `Scopes.TwoStarsBreakCoverage`, and
  `Scopes.CoverageComposesIffNoTwoStars` for the exact condition.
- *At most `max` requests per minute and IP* holds exactly when Redis is not
  configured (`IpRateRuns.LimitHoldsIffRedisIsNotConfigured`). With Redis the
  buckets are aligned to the clock, so 2 * max pass within two seconds although
  nothing fails (`IpRateRuns.AlignedBucketsDoubleTheLimit`,
  `IpRateRuns.CalmLimitHoldsIff`); with failures the bound is 3 * max + 3
  (`IpRateLimit.MinuteBound`), reached for every max (`IpRateRuns.BoundIsReached`).
- *A token verifies until it expires* depends on the spacing of rotations. It
  verifies exactly while at most one rotation lies between signing and use
  (`SigningKeys.TokenVerifiesIffAtMostOneRotation`); every token lasts exactly
  when the rotations are far enough apart (`SigningKeys.EveryTokenLastsIffSpaced`),
  and two that are not lose one (`SigningKeys.CloseRotationsLoseAToken`).

## Model

| member | source | states |
|---|---|---|
| RefreshTable.TableIsDisjointPaths | app/repositories/sql_refresh_tokens.py:237-277 | the rows are a disjoint union of simple finite paths: following replaced_by never returns, no row has two predecessors, the replacement exists with the same client and subject, a replaced row is revoked, and families partition the table |
| RefreshTable.LiveTokenIsTail | app/repositories/sql_refresh_tokens.py:237-277 | a family has at most one live token, and every member leads to it |
| RefreshTable.WriteKeepsWellFormed | deploy/iam_refresh_tokens.sql:13-29 | every write the constraints and the row lock allow keeps that shape, deletes nothing, and writes revoked_at and replaced_by at most once |
| RefreshTable.RevokingDescendantsKillsFamily | app/repositories/sql_refresh_tokens.py:28-42 | revoking what the query reaches from any member leaves no live token in the whole family, ancestors included, and touches no other row |
| RefreshTable.LateRevokeKillsFamilyIffNothingNew | app/repositories/sql_refresh_tokens.py:147-154 | if the family is computed first and updated later, it is dead exactly when no live member is newer than the computation |
| RefreshTable.LateRevokeKillsFamilyIffNoneRotated | app/repositories/sql_refresh_tokens.py:147-154 | for any writes in between: it is dead exactly when none of them rotated a member, or the family had died before the update |
| RefreshTable.LateRevokeMissesExactlyARotation | app/repositories/sql_refresh_tokens.py:147-154 | for one write in between: exactly when it does not rotate a member |
| RefreshTable.LateRevokeCanMissARotation | app/repositories/sql_refresh_tokens.py:147-154 | a concrete run in which it misses one, and a second revocation kills it |
| RefreshTable.FamilyGrowsOnlyByItsOwnRotation | app/repositories/sql_refresh_tokens.py:229-277 | inserts, revocations and rotations elsewhere leave a family's membership as it is |
| RefreshTable.DeadFamilyStaysDead | app/repositories/sql_refresh_tokens.py:219-227 | no write gives a dead family a live token |
| RefreshRepository.FamilyQuery | app/repositories/sql_refresh_tokens.py:28-42 | the recursive query, run as a worklist, terminates on every table (cycles and dangling links included) and finds exactly what replaced_by reaches |
| RefreshRepository.RefreshTokenRepository.Insert | app/repositories/sql_refresh_tokens.py:68-104 | stores exactly one fresh row, or nothing when a statement or constraint fails |
| RefreshRepository.RefreshTokenRepository.LookupActive | app/repositories/sql_refresh_tokens.py:106-145 | finds by hash; a rotated token loses its family before the error, a withdrawn or expired one changes nothing |
| RefreshRepository.RefreshTokenRepository.RevokeFamily | app/repositories/sql_refresh_tokens.py:147-154 | commits the revocation of exactly the live descendants, or rolls back |
| RefreshRepository.RefreshTokenRepository.RejectRevoked | app/repositories/sql_refresh_tokens.py:156-164 | a revoked row with a replacement is a replay; one without is only refused |
| RefreshRepository.RefreshTokenRepository.RevokeActiveForClient | app/repositories/sql_refresh_tokens.py:166-183 | commits the revocation of exactly the client's live rows, or rolls back |
| RefreshRepository.RefreshTokenRepository.Rotate | app/repositories/sql_refresh_tokens.py:185-283 | for a failure at any statement, the committed rows and the outcome are those of the specification, and the session holds nothing uncommitted |
| RefreshRepository.RotateIsAllOrNothing | app/repositories/sql_refresh_tokens.py:219-283 | those rows are unchanged, fully rotated, or exactly family-revoked; a record is returned in the second case only |
| RefreshRepository.LookupByRow | app/repositories/sql_refresh_tokens.py:106-164 | the answer to a presented token by the fields of its row and the statement that fails: spent, withdrawn, expired (refused as expired, nothing written) or usable |
| RefreshRepository.RotateByRow | app/repositories/sql_refresh_tokens.py:185-283 | the same for a rotation, with every row of the table afterwards |
| RefreshRepository.RefreshByRow | app/services/auth_token_service.py:85-122 | the refresh of a live token by the fields of its row and its client, with every row of the table afterwards |
| RefreshRepository.SpentOrExpiredIsRefused | app/repositories/sql_refresh_tokens.py:135-164 | a spent or expired token is refused before its client is looked at |
| RefreshRepository.UnknownTokenIsRefused | app/repositories/sql_refresh_tokens.py:106-145 | a token no row holds is refused and nothing is written |
| AuthTokens.AuthTokenService.IssueServiceToken | app/services/auth_token_service.py:24-73 | on every path the access token opens for the subject service:<id>, the client id and the parts of the granted scopes until its minutes are over, short exactly for a client that opted in; a refresh token, stored with the same, exactly when it opted in and there is storage; a failure stores nothing |
| AuthTokens.AuthTokenService.Refresh | app/services/auth_token_service.py:75-122 | storage, lookup, binding, opt-in, scope intersection and rotation in that order, with the revocation each refusal carries; success returns a token that opens for the client with exactly the new record's scopes, sorted, for the short lifetime |
| RefreshRuns.StepKeepsInv | app/services/auth_token_service.py:85-108 | every transaction of every call keeps the table well formed, scopes narrowing, and what each call has learnt about its row true |
| RefreshRuns.RunKeepsInv | app/services/auth_token_service.py:85-108 | so does every run, and no run rewrites what is written |
| RefreshRuns.AtMostOneWinnerPerToken | app/repositories/sql_refresh_tokens.py:200-283 | of the calls presenting one token at most one ever gets a new one, whatever fails and whoever else runs |
| RefreshRuns.DeadForever | app/repositories/sql_refresh_tokens.py:147-164 | a family without a live token has none in any later state of any run |
| RefreshRuns.InvHoldsInitially | deploy/iam_refresh_tokens.sql:13-29 | the empty table with calls about to start satisfies the invariant |
| RefreshRuns.SequentialRefreshIsARun | app/services/auth_token_service.py:75-108 | the service method run alone is two steps of the interleaving model, with the same rows and outcome |
| RefreshRaces.ExactlyOneRefreshWins | app/services/auth_token_service.py:85-108 | when any number of entitled refreshes of one live token are through, exactly one has succeeded; with two or more the whole family is dead, the winner's token included |
| RefreshRaces.RefreshRaceAmongStrangers | app/services/auth_token_service.py:85-108 | the same with the other callers described by what they present: tokens of other families, by other clients or by this one if it may refresh them or they are spent, or tokens that do not exist yet, later descendants included |
| RefreshRaces.BadPresentationKillsFamily | app/services/auth_token_service.py:88-90 | presenting a rotated token, or a live one as another client, is refused and kills the family then and in every later state, touching no other family |
| RefreshRaces.WithdrawnTokenChangesNothing | app/repositories/sql_refresh_tokens.py:156-164 | an explicitly revoked, never rotated token is refused and writes nothing |
| RefreshRaces.RefreshNeverWidensScopes | app/services/auth_token_service.py:96-115 | the scopes of a refreshed token lie in every ancestor's grant and in the client's, whatever ran between lookup and rotation |
| TokenLifecycle.RefreshSucceedsIffAScopeIsHeld | app/services/auth_token_service.py:96-108 | one refresh of a presentable token succeeds exactly when some scope is literally granted; otherwise every token of the client is revoked |
| TokenLifecycle.UnchangedClientRefreshesIffAScopeIsHeld | app/services/auth_token_service.py:96-108 | a chain of refreshes of any length succeeds exactly under that condition on the first token |
| TokenLifecycle.IssuedTokenRefreshesIffALiteralGrant | app/services/auth_token_service.py:96-108 | for any grants and any request, the token issued for it can be refreshed exactly when one issued scope is literally among the grants; otherwise the first refresh revokes every token of the client |
| TokenLifecycle.WildcardOnlyRequestIsIssued | app/auth/service_clients.py:261-267 | a request that is issued and fails that condition |
| TokenLifecycle.DefaultScopesStayRefreshable | app/auth/service_clients.py:261-264 | a request without scopes is issued everything granted, and its token refreshes to exactly that; with no grants at all the refresh is refused |
| TokenLifecycle.RefreshedAccessTokenIsWithinBoth | app/services/auth_token_service.py:109-122 | the access token of a refresh decodes, until it expires, to the client with exactly the scopes both sides hold |
| SlidingWindow.Evict | app/core/subject_rate_limit.py:38-39 | the eviction loop leaves the entries no older than the window |
| SlidingWindow.RecentIsWindow | app/core/subject_rate_limit.py:35-41 | on an ascending log those are a suffix, and exactly the entries in the closed window |
| SlidingWindow.RecentLengthIsCount | app/core/subject_rate_limit.py:35-41 | their number is the count of admissions in the window |
| SlidingWindow.AdmissionKeepsSpacing | app/core/subject_rate_limit.py:41-59 | admitting only into a window with room keeps any limit + 1 admissions more than a window apart |
| SlidingWindow.IntervalBound | app/core/subject_rate_limit.py:30-61 | a closed interval of at most k windows holds at most k * limit admissions |
| SubjectRateLimit.RateLimiter.Check | app/core/subject_rate_limit.py:33-59 | admits exactly when the whole history of the request's quota has room in the last window, and then records it; the answer to every other quota, at any time, stays what it was |
| SubjectRateLimit.RateLimiter.NamedSubjectsAreIndependent | app/core/subject_rate_limit.py:34-36 | a subject with a name is judged by its own admissions and nobody else's |
| SubjectRateLimit.RateLimiter.TheNamelessShare | app/core/subject_rate_limit.py:34 | requests without a subject, with an empty one and as anonymous share one quota |
| SubjectRateLimit.RateLimiter.AdmissionsAreBounded | app/core/subject_rate_limit.py:24-61 | in any reachable state the interval bound holds for every quota |
| SubjectRateLimit.CheckDeletion | app/api/routes/admin.py:131-132 | a deletion passes exactly when both limiters have room, each at its own reading of the clock; refused by the first, it leaves the second untouched |
| IpRateLimit.ServeKeepsSound | app/core/rate_limit.py:80-127 | every request, whatever fails and whoever else counts, keeps: in-memory histories spaced, each Redis key within the limit and never behind its admissions, failures thirty seconds apart, nothing but memory without Redis |
| IpRateLimit.RunKeepsSound | app/core/rate_limit.py:80-127 | so does every run |
| IpRateLimit.CountedKeepsOk | app/core/rate_limit.py:111-118 | the count an increment returns is one more than everything counted in the bucket, and more than this process admitted through it |
| IpRateLimit.KeyOutlivesBucket | app/core/rate_limit.py:113-117 | a key never expires while an instant of its bucket can still come |
| IpRateLimit.KeysCountUntilTheyExpire | app/core/rate_limit.py:113-117 | a key counts for sixty-five seconds once its expiry is set |
| IpRateLimit.LiveWhileCounted | app/core/rate_limit.py:113-117 | so expiry never resets a counter that is still counted against |
| IpRateLimit.MinuteBound | app/core/rate_limit.py:63-127 | any closed minute holds at most 3 * limit + 3 admissions of an IP: two Redis buckets, one in-memory window, three failures |
| IpRateLimit.LimitHoldsWithoutRedis | app/core/rate_limit.py:90-100 | without a configured Redis it holds at most limit |
| IpRateRuns.LimitHoldsIffRedisIsNotConfigured | app/core/rate_limit.py:63-127 | over all runs, no closed minute exceeds the limit exactly when Redis is not configured |
| IpRateRuns.CalmLimitHoldsIff | app/core/rate_limit.py:111-118 | over the runs without failures, exactly when Redis is not configured or the limit is zero |
| IpRateRuns.AlignedBucketsDoubleTheLimit | app/core/rate_limit.py:113 | for every limit, a run without failures that admits twice the limit in a minute |
| IpRateRuns.BoundIsReached | app/core/rate_limit.py:63-127 | for every limit, a run that reaches 3 * limit + 3 |
| IpRateRetries.AttemptsAreSpaced | app/core/rate_limit.py:63-78 | in every run an attempt to reconnect comes at least thirty seconds after every attempt and every failure before it |
| IpRateRetries.FailedAttemptRestartsTheWait | app/core/rate_limit.py:77-78 | after an attempt that fails, this request and all that check within thirty seconds are decided in memory, without another attempt |
| IpRateRetries.FailureStartsTheWait | app/core/rate_limit.py:119-127 | the same after a call has raised, which let its own request pass |
| IpRateRetries.ServeByHistory | app/core/rate_limit.py:80-127 | from what has happened alone: when an attempt is made, whether Redis or memory decides, and what the answer is, for every combination of failures |
| IpRateMiddleware.RateLimitMiddleware.TryReconnect | app/core/rate_limit.py:63-78 | is the reconnection of the state machine: nothing within thirty seconds of the last failure, then one ping, recorded with its answer |
| IpRateMiddleware.RateLimitMiddleware.Dispatch | app/core/rate_limit.py:80-109 | is one request of the state machine, for every combination of failures; admits exactly when the history grows |
| IpRateMiddleware.RateLimitMiddleware.CountInRedis | app/core/rate_limit.py:111-127 | counts in the aligned bucket; a failure, the one setting the expiry included, admits this request and leaves Redis |
| IpRateMiddleware.RateLimitMiddleware.Count | app/core/rate_limit.py:113-117 | increments after whatever others counted, and sets the expiry only on a new key |
| IpRateMiddleware.RateLimitMiddleware.CountInMemory | app/core/rate_limit.py:91-106 | admits exactly when the IP's whole in-memory history has room in the last minute |
| IpRateMiddleware.RateLimitMiddleware.DropEmptyBuckets | app/core/rate_limit.py:102-106 | the sweep drops only empty deques and changes no decision |
| IpRateMiddleware.RateLimitMiddleware.AdmissionsPerMinute | app/core/rate_limit.py:63-127 | in every reachable state of the middleware: 3 * limit + 3 with Redis configured, limit without |
| Accounts.ApplyKeepsInv | deploy/iam_user_api_key_schema.sql:111-127 | every operation keeps: an inactive account owns no enabled key, each key has one issue event, keys lead back to their prefix; and it logs user_disabled exactly for the accounts it deactivates |
| Accounts.RunKeepsInv | deploy/iam_user_api_key_schema.sql:106-132 | so does every run from a state that satisfies it |
| Accounts.InvHoldsInitially | deploy/iam_user_api_key_schema.sql:17-83 | the empty schema satisfies it |
| Accounts.DisableEventsCountDeactivations | deploy/iam_user_api_key_schema.sql:111-127 | over any run the log holds one user_disabled event per transition from active to inactive |
| Accounts.DeactivationIsFinal | deploy/iam_user_api_key_schema.sql:281-298 | a key owned at deactivation is refused in every later state, reactivation by email included, and the refusal is logged |
| Accounts.DeadKeyIsRefused | app/auth/user_api_keys.py:134-182 | a disabled key is found by its prefix, refused, and the refusal committed |
| Accounts.KnownKeyIsJudgedByItsRow | app/auth/user_api_keys.py:134-224 | the answer to a key on file by the fields of its row and owner: disabled, expired (its own error and event, keys untouched), inactive owner, or verified with only the last use written |
| Accounts.UnknownKeyIsRefused | app/auth/user_api_keys.py:155-182 | a key no row holds is refused, with an event of its own if it looks like a key |
| Accounts.VerifiesIffARowIsUsable | app/auth/user_api_keys.py:134-167 | a raw key verifies exactly when a row holds it that is active, unrevoked and unexpired and its owner is active |
| Accounts.ProvisionedKeyVerifiesIff | deploy/iam_user_api_key_schema.sql:111-127 | after any operations, a provisioned key verifies exactly when its owner has not been deactivated since and it has not expired |
| Accounts.DeletionNeedsTheCode | app/services/account_service.py:116-159 | nothing is deleted without the operator's code; with it the account, its enabled keys and both events |
| Accounts.CreationNeedsAFreeAddress | app/services/account_service.py:62-114 | an account is created active under its address in lower case, unless that or the identifier is in use |
| Accounts.FaultsChangeNothing | app/services/account_service.py:62-159 | a failure in the database changes nothing; what needs no database is refused first |
| Accounts.IssuingNeedsAnActiveAccount | deploy/iam_user_api_key_schema.sql:136-251 | which refusal it is, and the one row a key adds: active account, scopes of the grammar, the first draw that collides with nothing |
| Accounts.ProvisioningIsAllOrNothing | deploy/iam_user_api_key_schema.sql:254-300 | the account with the address is active and owns the new key, or nothing has changed |
| Accounts.EnabledKeyVerifies | app/auth/user_api_keys.py:134-224 | an enabled, unexpired key verifies for its account with its scopes |
| Accounts.ProvisionedKeyVerifies | deploy/iam_user_api_key_schema.sql:254-300 | the key provisioning returns verifies until it expires, with the scopes asked for |
| KeyFormat.IssuedKeyParses | app/auth/user_api_keys.py:38-57 | the prefix read from an issued key is the prefix it was issued under |
| KeyFormat.KeyFormatIff | app/auth/user_api_keys.py:38-57 | exactly the tag, sixteen characters that read as a number, an underscore and a secret pass |
| KeyFormat.ParsesAsHexIff | app/auth/user_api_keys.py:53-56 | what reads as a number: a sign, 0x and single underscores between digits are let through |
| KeyFormat.HexDigitsAreRuns | app/auth/user_api_keys.py:53-56 | the digits are runs without gaps between underscores |
| AccountService.ValidateScopeArray | deploy/iam_user_api_key_schema.sql:87-102 | accepts exactly arrays of scopes within the grammar |
| Draws.DrawUntilFree | deploy/iam_user_api_key_schema.sql:190-240 | the retry loop stops at the first draw that violates no constraint |
| AccountService.IssueUserApiKey | deploy/iam_user_api_key_schema.sql:136-251 | its checks, in order, and the row and event it adds |
| AccountService.AccountService.CreateAccount | app/services/account_service.py:62-114 | with a failure at any statement, is the create step of the state machine or changes nothing, and leaves nothing uncommitted |
| AccountService.AccountService.DeleteAccount | app/services/account_service.py:116-159 | approval first, then deactivation with its trigger, the event and the commit: the delete step, or nothing when one of them fails |
| AccountService.AccountService.ProvisionUserApiKey | deploy/iam_user_api_key_schema.sql:254-300 | is the provision step; a failed issue takes the reactivation back |
| AccountService.AccountService.VerifyUserApiKey | app/auth/user_api_keys.py:118-224 | is the verify step with a failure at any statement; the audit event of a refusal is committed before the rollback that follows, the last use only on success |
| ServiceClients.ApplyKeepsInv | deploy/iam_api_key_schema.sql:147-163 | every operation keeps: an active secret is unrevoked and its client active; no secret becomes more usable |
| ServiceClients.RunKeepsSecretsRetired | deploy/iam_api_key_schema.sql:142-168 | over any run: an active secret is unrevoked and its client active, secrets stay, and none that was inactive becomes active |
| ServiceClients.DisablingByField | deploy/iam_api_key_schema.sql:147-163 | disabling a client, field by field: its secrets revoked, one event, and no secret authenticates for it |
| ServiceClients.TokenIsIssuedIff | app/auth/service_clients.py:137-235 | a token is issued, and logged, exactly to an active, unrevoked client with an active, unrevoked, unexpired secret of its own |
| ServiceClients.DisablingRetiresSecrets | deploy/iam_api_key_schema.sql:142-168 | disabling a client retires its secrets in every later state, re-provisioning included |
| ServiceClients.ProvisioningLeavesOneSecret | scripts/provision_db_service_client.py:327-337 | without keep-existing exactly the new secret is active afterwards; other clients are untouched; a refusal changes nothing |
| ServiceClients.OnlyTheNewSecretAuthenticates | app/auth/service_clients.py:137-235 | after it, a presented secret authenticates exactly when it is the new one and unexpired |
| ServiceClients.ProvisionedClient | scripts/provision_db_service_client.py:89-216 | the client afterwards: type, active, unrevoked, and its scopes: kept, or those of its type unless least privilege, plus the requested ones; no other client changes |
| ServiceClients.GeneratedSecretIsADraw | scripts/provision_db_service_client.py:245-300 | a generated secret is the text of one draw, stored under its prefix, with the asked expiry |
| ServiceClients.ProvisioningRefusedIff | scripts/provision_db_service_client.py:89-300 | exactly what is refused: an unknown type, a known client not to be touched, no scopes at all, a scope outside the grammar, draws that all collide |
| ProvisioningScript.GrantManualScopes | scripts/provision_db_service_client.py:192-216 | adds exactly the requested scopes, stopping at one outside the grammar or at a statement that fails |
| ProvisioningScript.Issue | scripts/provision_db_service_client.py:245-300 | the stored secret, or none when the client is not usable |
| ProvisioningScript.ProvisionMain | scripts/provision_db_service_client.py:322-342 | the ordered statements amount to the provisioning step; a failure at any of them, the commit included, leaves the registry as it was |
| Scopes.CoverageComposesIffNoTwoStars | app/auth/scopes.py:30-36 | coverage composes through a grant exactly when it does not end in two stars |
| Scopes.CoverageIsTransitive | app/auth/scopes.py:39-45 | what a covered set covers, the grants cover |
| Scopes.TwoStarsBreakCoverage | deploy/iam_api_key_schema.sql:49 | the grammar admits a grant for which that fails |
| Scopes.WellFormedScopeIsPlain | deploy/iam_api_key_schema.sql:49 | the grammar keeps blanks out of grants; requested scopes are not checked against it |
| Scopes.ScopeIsResourceAndAction | deploy/iam_api_key_schema.sql:49 | the grammar is a resource, a colon and an action, in which stars may stand |
| Scopes.PlainScopesCoverThemselves | app/auth/scopes.py:30-45 | scopes without a final star cover exactly themselves |
| Tokens.DecodeSignedClaims | app/auth/tokens.py:47-94 | the loop over keys accepts exactly when some usable key does, and returns the signed claims |
| Tokens.ScopesRoundTripIffPlain | app/auth/tokens.py:20-27 | joined scopes are read back unchanged exactly when each is non-empty, stripped and free of blanks |
| Tokens.DecodesIff | app/auth/tokens.py:47-94 | a token is somebody's exactly when signed with the current or previous secret, within its lifetime, from the right issuer to the right audience where enforced, with complete claims |
| Tokens.DecodedPrincipalIsTheClaims | app/auth/tokens.py:213-271 | every field of the principal is the claim of that name |
| Tokens.MintedServiceTokenDecodes | app/auth/tokens.py:97-114 | a service token decodes to its subject, client and the blank-separated parts of its scopes until it expires, to nobody afterwards |
| Tokens.MintedDelegatedTokenDecodes | app/auth/tokens.py:117-147 | a delegated token decodes to its user, client, tenant, version, identifier and the parts of its scopes until it expires |
| RequestedScopes.NormalizedIs | app/schemas/auth.py:15-19 | a normalised request holds exactly the non-empty stripped entries |
| RequestedScopes.RoutesNeverExceedGrants | app/auth/tokens.py:20-27 | normalise, validate, mint, decode, check: under grants without two final stars, what one request opens lies within the grants exactly when the blank-separated parts of what was issued do |
| RequestedScopes.RequestsStayWithinIffNoWildcard | app/auth/service_clients.py:261-267 | for grants within the scope grammar, every request of a client stays within them exactly when none ends in a star |
| RequestedScopes.WildcardRequestCanExceedItsGrant | app/schemas/auth.py:15-19 | an instance: a market wildcard, one requested scope with a blank inside, and an admin requirement that passes |
| Tokens.DelegatedTokensStayReadOnly | app/api/routes/auth.py:98-108 | a delegated token passes only requirements among the four Lens read scopes, and of those only granted ones |
| SigningKeys.EnvironmentFile.Rotate | scripts/rotate_secrets.py:37-68 | current moves to previous, alias and current are new, client secrets are replaced; nothing changes if the client configuration does not parse |
| SigningKeys.EpochSecrets | scripts/rotate_secrets.py:37-42 | after n rotations the signing secret is the n-th and the previous slot the one before |
| SigningKeys.RotationByName | scripts/rotate_secrets.py:37-48 | one rotation, variable by variable |
| SigningKeys.SecretVerifiesIffAtMostOneEpochOld | app/core/config.py:284-296 | a secret of epoch i is accepted in epoch n exactly when n - i <= 1 |
| SigningKeys.TokenVerifiesIffAtMostOneRotation | app/auth/tokens.py:87-94 | an unexpired token verifies exactly when at most one rotation has happened since it was signed |
| SigningKeys.EveryTokenLastsIffSpaced | app/core/config.py:284-296 | every token verifies at every moment until it expires exactly when no rotation, counted to the end of its second, comes within a lifetime of an earlier one |
| SigningKeys.CloseRotationsLoseAToken | app/core/config.py:284-296 | for any two that do, a token that is refused before it expires |
| SigningKeys.OneLifetimeApartIsSpaced | docs/SECRET_ROTATION_RUNBOOK.md:58-62 | the runbook's wait of one lifetime is enough |
| SigningKeys.MintedTokensLast | app/auth/tokens.py:97-147 | so with spaced rotations service and delegated tokens verify until they expire |
| SigningKeys.TwoRotationsRetireAToken | app/core/config.py:289-296 | two rotations later it never verifies |
| SigningKeys.UserEpochSecrets | scripts/rotate_secrets.py:44-48 | after n rotations the user secret is the n-th and the previous slot the one before |
| SigningKeys.UserSecretsAre | app/core/config.py:298-306 | the two slots for user tokens, current first, without blanks or a repetition |
| SigningKeys.UserSecretsOverlapOneRotation | app/core/config.py:298-306 | a user secret of epoch i is accepted in epoch n exactly when n - i <= 1 |
| Policy.GrantRowsAreTheEntitlements | app/policy/repository.py:29-65 | the grant query joins exactly the rows that satisfy the enforcement query |
| Policy.BuildLockQuery | app/policy/repository.py:137-149 | one clause per pair, each name bound to its own value and none overwritten |
| Policy.ClausesMeanPairs | app/policy/repository.py:140-158 | the generated disjunction matches a lock exactly when its pair is listed |
| Policy.AssertNotLocked | app/policy/repository.py:120-175 | the generated query locks exactly when an active lock names a target and has no end or one still to come; then revoked or allowed |
| Policy.Enforce | app/policy/repository.py:67-118 | the decision, and that a database failure never admits a principal that has to be checked |
| Policy.GrantLensDelegation | app/policy/repository.py:29-65 | grants the newest qualified version with nothing standing against it; refuses as locked by a lock in force, as not entitled exactly when no version qualifies, in the tables' own fields |
| Policy.GrantedPrincipalIsAllowed | app/policy/repository.py:67-118 | whoever is granted passes enforcement in the same state with a fresh token identifier |
| Policy.CanonicalIsItself | app/policy/repository.py:91 | the uuid cast gives back any uuid as printed |
| Policy.CastReadsSpellings | app/policy/repository.py:91 | the cast reads exactly the spellings of a uuid: either case, a hyphen or none between groups, braces or none |
| Policy.BracesGo | app/policy/repository.py:91 | braces around the text make no difference |
| Policy.HexIsSixteenDigits | app/policy/repository.py:91 | the digits of a printed uuid |
| Policy.GrantedTokenPassesEnforcement | app/api/routes/auth.py:92-108 | the same through minting and decoding |
| Policy.DelegatedAllowedIff | app/policy/repository.py:67-175 | a delegated principal passes exactly when tenant, application and membership are active, the version is active, effective and entitled, and no active lock that has not ended and no revocation names it |
| Policy.ServiceAllowedIff | app/policy/repository.py:111-175 | a service principal passes exactly when no such lock and no revocation names it; no other principal is checked |
| Policy.RefusalsAreOrdered | app/policy/repository.py:67-175 | which refusal it is, and its cause in the tables |
| Policy.LockShutsOutExactlyItsTargets | app/policy/repository.py:128-161 | one more lock shuts out exactly those it names while it is active and not ended, and changes no other verdict |
| Policy.LockEndsWhenItExpires | app/policy/repository.py:150-152 | a lock with an end shuts out until then and no longer |
| QueryBuilder.FilterRoundTrip | app/repositories/sql_data.py:250-259 | a filter written as column:op:value is parsed back, colons and blanks in the value included |
| QueryBuilder.ParsesWhatIsWritten | app/repositories/sql_data.py:250-259 | what is parsed as a filter was written as one, and every filter on a known column is parsed |
| QueryBuilder.OperatorNames | app/repositories/sql_data.py:28-37 | the eight operators and their names |
| QueryBuilder.NoEarlyErrorIff | app/repositories/sql_data.py:164-205 | exactly which requests get past the checks of columns, filters, symbol and range |
| QueryBuilder.FirstFilterError | app/repositories/sql_data.py:169-177 | among several bad filters the first decides the error |
| QueryBuilder.NoOrderErrorIff | app/repositories/sql_data.py:206-218 | and past those of the order |
| QueryBuilder.IdentifierIff | app/repositories/sql_data.py:40-44 | what may be quoted as an identifier; a final newline is let through |
| QueryBuilder.FirstDateColumn | app/repositories/sql_data.py:261-267 | the order of preference of the seven date columns |
| QueryBuilder.DateColumnIs | app/repositories/sql_data.py:193-199 | the column asked for, else the preferred one |
| QueryBuilder.PlaceholdersAreDistinct | app/repositories/sql_data.py:169-205 | for any number of filters no placeholder is used twice, nor for limit or offset |
| QueryBuilder.AddFilters | app/repositories/sql_data.py:169-177 | the clauses and parameters of the filters, or the first filter's error |
| QueryBuilder.AddSymbol | app/repositories/sql_data.py:179-191 | the symbol clause by the columns the table has, or its error |
| QueryBuilder.AddRange | app/repositories/sql_data.py:193-205 | the date clauses on the chosen column, or the error of that choice |
| QueryBuilder.BuildQuery | app/repositories/sql_data.py:164-220 | which error wins, and a query whose parameters are limit, offset and the placeholders, one to one |
| QueryBuilder.QuerySelectsExactlyWanted | app/repositories/sql_data.py:169-220 | for any meaning of the operators, the query selects exactly the rows that meet filters, symbol and range |
| QueryBuilder.DefaultOrderColumn | app/repositories/sql_data.py:261-276 | always a column of the table: a date column, else a key, else the least name |
| Text.Least | app/repositories/sql_data.py:276 | the first of the sorted names |
| Text.CaseMapsTheAlphabet | app/repositories/sql_data.py:254 | what lower-casing and upper-casing change |
| Text.OuterBlanksGo | deploy/iam_user_api_key_schema.sql:278 | trimming an address takes blanks from both ends and nothing else |
| EnvFile.ParseEnvText | scripts/bootstrap_local_env.py:60-71 | the loop computes the fold of the lines' entries |
| EnvFile.AssignsIff | scripts/bootstrap_local_env.py:60-71 | which lines assign which key and value |
| EnvFile.LineIsRewrittenIff | scripts/bootstrap_local_env.py:112-125 | which lines of the template are rewritten, and to what |
| EnvFile.LineWithoutEqualsStays | scripts/bootstrap_local_env.py:115-117 | a line without an equals sign is printed as it is |
| EnvFile.AppendedOneMore | scripts/bootstrap_local_env.py:127-130 | the remaining values follow in the order of the dictionary, each as key=value |
| EnvFile.OneFinalNewline | scripts/bootstrap_local_env.py:131 | the file ends in one line break with no white space before it |
| EnvFile.RenderTemplate | scripts/bootstrap_local_env.py:112-125 | every line rewritten or kept, and which keys were |
| EnvFile.RenderEnv | scripts/bootstrap_local_env.py:112-131 | the printed text, remaining values in the order of the dictionary |
| EnvFile.ParseOfRender | scripts/bootstrap_local_env.py:112-131 | printing and parsing gives the template's values with the stripped printed ones over them |
| EnvFile.RoundTripIff | scripts/bootstrap_local_env.py:60-131 | it gives back the printed values exactly when they are stripped and cover the template's keys |
| EnvFile.BootstrapWritesItsValues | scripts/bootstrap_local_env.py:150-173 | what the script computes is what the file it writes holds |
| EnvFile.RenderIsIdempotent | scripts/bootstrap_local_env.py:112-131 | printing again over the result writes the same text |
| EnvFile.CommentsAreKept | scripts/bootstrap_local_env.py:112-131 | the comments of the template, in order, and no others, up to white space at line ends |
| AdminGateway.NormalizeIsIdempotent | app/api/routes/admin_gateway.py:88-95 | an accepted path is a fixed point without outer slash, empty or dot segment or forbidden character |
| AdminGateway.PlainPathsPass | app/api/routes/admin_gateway.py:88-95 | with any slashes around it, a path passes exactly when it has no backslash, percent sign or control character and no empty or dot segment, and passes without those slashes |
| AdminGateway.FamilyIsPrefixAndBelow | app/api/routes/admin_gateway.py:103-113 | a family is its prefix and everything below it |
| AdminGateway.MethodsOfFamilies | app/api/routes/admin_gateway.py:28-64 | which families allow deletion, which only POST, which only GET |
| AdminGateway.ManifestIsDisjoint | app/api/routes/admin_gateway.py:28-64 | no path is in two families of the manifest |
| AdminGateway.IsAllowedAdminRoute | app/api/routes/admin_gateway.py:103-113 | the first family that has the path decides as any family would |
| AdminGateway.UnquoteOfQuote | app/api/routes/admin_gateway.py:98-100 | percent-encoding (section 2.1 of RFC 3986) decodes to the same bytes |
| AdminGateway.SegmentsOfQuote | app/api/routes/admin_gateway.py:98-100 | encoding does not move a segment boundary |
| AdminGateway.UnreservedStays | app/api/routes/admin_gateway.py:98-100 | letters, digits, the four marks and slashes are sent as they are |
| AdminGateway.BytesDetermineTheText | app/api/routes/admin_gateway.py:98-100 | UTF-8 (section 3 of RFC 3629) is injective: no character's code is the start of another's |
| AdminGateway.UpstreamSeesTheCheckedPath | app/api/routes/admin_gateway.py:98-113 | an allowed path decodes upstream, segment by segment, to the path that was checked and to no other text, with no bare '?' or '#' |
| AdminGateway.PathsAreToldApart | app/api/routes/admin_gateway.py:98-100 | the upstream decodes two paths to the same segments exactly when they are one path |

## Left out

- RefreshRaces.ExactlyOneRefreshWins: supposes that no racer's own step meets a database failure or an expired token; without that, `RefreshRuns.AtMostOneWinnerPerToken` is what remains true.
- IpRateMiddleware.RateLimitMiddleware.DropEmptyBuckets: says nothing about the size of the map, since a deque is never empty between requests.
- KeyFormat.ParsesAsHexIff: ASCII digits only; Python's int() also reads the decimal digits of other scripts.
- Draws.DrawUntilFree: the draws are a finite list; that the database's loop ends is a matter of chance.
- SigningKeys.EnvironmentFile.Rotate: the values and client secrets, not the rewriting of the file's lines.
- Tokens.DecodeSignedClaims: the algorithm list, the leeway and PyJWT's own claim checks beyond iat, exp, iss and aud.
- Policy.GrantLensDelegation: with two applications of one client the row the database returns first is any newest one; `client_id` is unique in the schema.
- QueryBuilder.QuerySelectsExactlyWanted: the operators and the two symbol subqueries are parameters; ordering, limit and offset are not evaluated.
- The schema constraints on names, products and statuses other than those that drive a decision.
- User tokens (JWKS and symmetric), mTLS subjects, and the environment and hybrid modes of the client lookup.
- Listing accounts and clients, profile fields, last-used counters of service secrets, the expiry backfill.
- The idempotency header, header filtering and the proxy call of the admin gateway; JSON of the client configuration.
- HTTP routing, middleware headers, logging, metrics, the dashboard, market-data mapping, prompt checks and the AI calls.
