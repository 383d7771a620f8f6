# The credential and session lifecycle of ovlt-core, modelled and proved

ovlt-core is a multi-tenant identity server. This project models what its request handlers do to
the credential tables (authorization codes, refresh tokens, revoked token ids, sessions, login
attempts, rate-limit buckets, one-time tokens, TOTP secrets, backup codes, password history, roles and
permissions) and proves what the server promises about whole histories of requests: every token
traces back to one grant, revocation is permanent, counters agree with the history they abbreviate,
cleanup cannot be observed, and tenants do not touch each other. Every claim is a lemma or a
postcondition; `dafny verify dfyconfig.toml` (Dafny 4.11) verifies all of them.

## How it is organised

| file | content |
|---|---|
| `Prelude`, `Uuids`, `Crypto`, `Schema` | Option, Result and selections from lists; UUID text forms; ideal cryptography; the tables and the queries on one table |
| `Jwt`, `AdminAuth` | token claims, serialisation, the three validators; who may administer which tenant |
| `RateLimit` | the fixed-window limiter against an arbitrary interleaved log |
| `Handlers` | each handler as a function from tables, clock, request and drawn random values to tables and answer; `Step`; `Run` |
| `Effects` | what some changes come to, row by row, and that the functions compute exactly that |
| `Server` | the same handlers as methods of a class over mutable tables, proved equal to those functions; `Serve` turns any sequence of requests into a `Run` |
| `Runs` | runs built event by event, and one step of a run unfolded, one request kind at a time |
| `Conditions` | who asks and with what standing, said of rows and claims: what the handlers' checks come to |
| `Answers`, `Accounts`, `Credentials`, `OneTimeTokens`, `TokenTables`, `Factors` | exactly when each request is served, what tokens it hands out are worth, and how each row of accounts, one-time tokens, refresh tokens, revoked ids and TOTP secrets moves in every step of every run, all in row fields |
| `CodeFlow`, `RefreshFamilies`, `PasswordResets`, `Revocations`, `ActiveAccounts`, `MfaFlow`, `SingleUse`, `PasswordHistory`, `Lockout`, `RateLimitedRuns`, `CleanupUnseen`, `UniversalLogin` | theorems about all runs |
| `Rbac`, `TenantIsolation` | roles and permissions, administrator scope, isolation over runs of administrative calls |
| `TenantKeyCache`, `SignedState`, `OtpAuth` | the middleware's key cache, the signed OAuth state, the otpauth URI |

The source handlers change tables step by step, so `Server`, `Rbac.Store` and
`TenantKeyCache.Middleware` are classes whose methods have the source's early returns, loops and
transaction rollbacks. What is promised over many requests is proved about the specification functions
those methods are equal to, and holds of the methods through `Server.Server.Serve`.

## Decisions

- Time is one integer clock in seconds, read once per request. Where a theorem needs a clock that does
  not run back, it says so (`Monotone`).
- A handler is one atomic step. A failure after a transaction began restores the transaction's tables;
  the steps that the source commits before failing (an inactive user's backup code, a reset
  token whose new password is refused) stay committed here too.
- Hashes, MACs, encryption and signatures are terms that remember their inputs, so they are injective and
  cannot be made without their key. An HMAC in `SignedState` and a TOTP in `Config` are arbitrary functions.
- Random values arrive as arguments. Theorems that need them to be new say so (`FreshMints`,
  `Punctual`); `CodeFlow`, `PasswordResets` and `MfaFlow` do not need it. Values that a UNIQUE or PRIMARY KEY
  column would refuse are refused.
- Row-level security is the tenant argument of each query. Uniqueness of e-mail lookups per tenant and of
  tenant ids is the invariant `Server.Server.Valid`, kept by every method.
- The JWT expiry leeway is a parameter (`Keys.leeway`).
- Unicode upper-casing is an arbitrary map from characters to strings (`Config.upper`). Theorems that need it
  to upper-case the ASCII letters, and leave the rest of ASCII alone, say so (`FoldsAscii`).
- Administrative requests carry their headers; `AdminAuth.RequireAdmin` decides whom they come from.

## Where documentation and code disagree

The model follows the code.

- `docs/security.md:99` and `docs/security.md:103` promise that reuse of a rotated refresh token ends the
  session. The code refuses the reuse and changes nothing: `RefreshFamilies.ReuseOnlyRefused`.
- `docs/security.md:130` promises a sliding-window rate limit. The code counts fixed windows, in the database:
  `RateLimit.SlidingLimitIffAligned` says from which instants the sliding limit holds, and
  `RateLimit.AtMostFortyPerMinute` what holds from all.
- The setting `lockout_duration_minutes` is stored and never read. A name is locked up to one lockout window after
  the maxAttempts-th latest attempt on file, whatever is requested meanwhile, and at no time after that
  (`Lockout.LockReleasesExactly`), or until a cleanup more than an hour after that attempt
  (`Lockout.CleanupReleases`), which comes first only for windows above an hour.
- `reset_password.rs:86-87` revokes the refresh tokens of a reset account "so existing sessions must re-login". Session
  cookies are left alone: `PasswordResets.OldSessionIdentifies` proves that a cookie from before the reset authorizes,
  in any continuation, if and only if its session has not expired and was not given up at a logout,
  `PasswordResets.OldTokenIdentifies` the same of access tokens, and `PasswordResets.OldSessionIsServed` is the run, for
  every database: reset, authorization by the old cookie, exchange for a new access token and a live refresh token.
- Login attempts are kept for one hour, which breaks the lockout bound for windows above 60 minutes. For every
  tenant in service, every address and every password that is wrong for it, `Lockout.BoundHoldsExactly` proves
  that the bound holds in all runs if and only if the window is at most 60 minutes or no attempt is allowed.
- `docs/security.md:21` names the list of revoked token ids as the protection of a stolen access token, and
  `docs/security.md:23` says that such tokens are rejected at introspection. Of the requests modelled here, seven look the id up
  (`middleware/auth.rs:39`, `oauth_as.rs:67`); the revocation endpoint (`oauth_revoke.rs:51-55`), the administrative
  calls (`admin_auth.rs:55-62`) and introspection (`oauth_as.rs:490-510`) do not.
  `Revocations.RefusesRevokedExactly` says which requests always refuse a revoked token and
  `Revocations.RevokedMeetsLookup` what becomes of the others. `Revocations.RevokedStillRevokes`,
  `Revocations.RevokedAdminStillServed` and `Revocations.RevokedIntrospectsActive` are runs in which a logged-out
  token revokes a refresh token, switches off an account's second factor, and is reported as active.
- A revoked token id can be forgotten by cleanup while the token is still within the leeway, and
  logout stores the revocation of a token signed with the previous secret as already expired:
  `CleanupUnseen.RevivedWithinLeeway`, `CleanupUnseen.RevivedAfterRotation`, with the exact condition in
  `CleanupUnseen.CleanupRevivesExactly`.
- `docs/mfa.md:103` says that a user who disables the second factor must show a valid TOTP code. Starting a new
  enrolment needs a bearer token only and has the same effect (`mfa_service.rs:147-170`).
  `MfaFlow.EnabledUntilEnded` gives exactly the three events that end an enabled secret, and
  `MfaFlow.BearerRemovesFactor` a run, for every such database, in which a bearer token without a code removes the
  second factor and the next login is answered with tokens.
- Logins, refreshes and challenges refuse inactive accounts; the code exchange does not look
  (`oauth_as.rs:292-294`). `ActiveAccounts.InactiveServedExactly` proves that an inactive account gets tokens from an
  event if and only if the event is an exchange that passes its checks for it, and
  `ActiveAccounts.DeactivatedAccountIsServed` is the run: authorize, deactivate, exchange.
- `docs/security.md:20` promises separation of tenants by row-level security. Cascading deletes are not subject to
  it, and assigned ids are not checked: `TenantIsolation.ViewChangesExactly` gives the exact condition under which
  an operation changes another tenant's rows, `TenantIsolation.BorrowedRoleCrosses` a run that meets it.
- Backup codes are folded with Unicode upper-casing, so texts outside ASCII can name a code:
  `SingleUse.NonAsciiVariant`. Within ASCII, `SingleUse.SameHashIffSameCode` says exactly which texts do.
- Percent-encoding in the otpauth URI escapes code points, not UTF-8 bytes: it is reversible exactly for
  text below code point 256 (`OtpAuth.UriReadsBack`).

## Model

| member | source | states |
|---|---|---|
| Uuids.ParseText | ovlt-core/src/services/oauth_service.rs:29-47 | the text form of every UUID parses back to it |
| Uuids.TextInjective | ovlt-core/src/services/oauth_service.rs:29 | different UUIDs have different text forms |
| Jwt.ReadsBackClaims | ovlt-core/src/services/token_service.rs:17-80 | deserialising a serialised access token gives the original claims, also when the per-client map is empty and omitted |
| Jwt.AccessTokenValidity | ovlt-core/src/services/token_service.rs:108-131 | an access token is accepted exactly while its secret is current or previous and its exp plus leeway has not passed, and yields the claims it was made from |
| Jwt.MfaTokenValidity | ovlt-core/src/services/token_service.rs:244-305 | the same for MFA tokens, which also need the purpose mfa_challenge |
| Jwt.KindsNeverMix | ovlt-core/src/services/token_service.rs:17-131 | user access, client access and MFA tokens are never accepted by another kind's validator, under any secrets at any time |
| Jwt.SurvivesOneRotation | ovlt-core/src/services/token_service.rs:108-131 | with distinct secrets a signature is accepted in its own epoch and the next one, and in no other |
| RateLimit.BucketsOutliveWindow | ovlt-core/src/services/rate_limit_service.rs:14-46 | in every reachable table a bucket expires at least one whole window after its own window ended |
| RateLimit.BucketCountsLog | ovlt-core/src/services/rate_limit_service.rs:14-46 | a bucket's count is the number of requests logged for its key and window, up to the largest 32-bit count, whatever purges ran in between |
| RateLimit.AdmitsFirstTwenty | ovlt-core/src/services/rate_limit_service.rs:14-36 | under any interleaving of upserts and purges, admitted requests per key and window equal min(requests, 20) |
| RateLimit.AtMostFortyPerMinute | ovlt-core/src/services/rate_limit_service.rs:6-36 | every half-open interval of 60 seconds admits at most 40 requests |
| RateLimit.FortyAreReached | ovlt-core/src/services/rate_limit_service.rs:6-36 | from every instant inside a window some log is admitted 40 requests within 60 seconds |
| RateLimit.SlidingLimitIffAligned | ovlt-core/src/services/rate_limit_service.rs:6-36 | at most 20 requests in the 60 seconds from an instant holds of all logs if and only if the instant starts a window |
| RateLimitedRuns.BucketsAreTheLog | ovlt-core/src/services/rate_limit_service.rs:14-46 | in every run of the whole service the bucket table is the one its request log produces |
| RateLimitedRuns.FirstTwentyAreServed | ovlt-core/src/middleware/security.rs:56-69 | in every run with a clock that never runs back, whatever else happens, each key and window serves exactly its first 20 requests |
| RateLimitedRuns.RateAnswersExactly | ovlt-core/src/services/rate_limit_service.rs:14-36 | of the requests of a key in a window the first 20 pass, the others are answered too many requests, and past the column's range an error |
| Server.Server.constructor | ovlt-core/src/state.rs:51-70 | the service starts on given tables that satisfy the uniqueness constraints |
| Server.Server.FindByEmailLookup | ovlt-core/src/services/user_service.rs:27-35 | finds the one account of the tenant with this e-mail lookup, or none |
| Server.Server.VerifyCode | ovlt-core/src/services/mfa_service.rs:127-145 | the loop over three time steps accepts a code exactly if it is the one for the previous, current or next 30-second step, with the cast to unsigned seconds |
| Server.Server.CheckHistory | ovlt-core/src/services/password_history_service.rs:11-37 | the loop reports reuse exactly if the password matches one of the newest `size` hashes |
| Server.Server.GenerateBackupCodes | ovlt-core/src/services/mfa_service.rs:30-57 | deletes the account's codes and stores the ten drawn ones, unused, in order |
| Server.Server.ConsumeBackupCode | ovlt-core/src/services/mfa_service.rs:59-84 | marks the first unused row with the code's hash as used, and reports whether there was one |
| Server.Server.Authenticate | ovlt-core/src/middleware/auth.rs:21-66 | bearer validation, revocation lookup, id parsing and tenant match, in that order with their errors |
| Server.Server.StoreRefreshToken | ovlt-core/src/services/token_service.rs:141-159 | exactly the keys on file before and the token's hash are on file after; the row of the hash is unrevoked, of the account, and expires after the given days; every other row is as it was |
| Server.Server.CreateSession | ovlt-core/src/services/session_service.rs:15-42 | inserts a session unless the id exists, and returns the id only if it did |
| Server.Server.SignIn | ovlt-core/src/handlers/login.rs:169-216 | refresh token, session and access token for the account under its tenant's lifetimes |
| Server.Server.Register | ovlt-core/src/handlers/register.rs:50-142 | registration with its refusals in order; the account stays even if storing the verification code fails; uniqueness is kept |
| Server.Server.VerifyEmail | ovlt-core/src/handlers/verify_email.rs:38-67 | the code is consumed and the address marked verified together, or nothing changes |
| Server.Server.CheckLogin | ovlt-core/src/handlers/login.rs:72-144 | lockout, lookup, active, verified, password and decryption checks in the source's order |
| Server.Server.Login | ovlt-core/src/handlers/login.rs:59-240 | a failure is recorded, a success clears the failures, and leads to an MFA token or to issued credentials |
| Server.Server.ScanTenants | ovlt-core/src/handlers/login_universal.rs:49-93 | the first loop collects exactly the active tenants with a readable key that know the address, in order |
| Server.Server.Describe | ovlt-core/src/handlers/login_universal.rs:95-117 | the second loop gives each match its own slug and name |
| Server.Server.CheckInMatch | ovlt-core/src/handlers/login_universal.rs:137-211 | the second text of the login's checks (its own lockout, lookup, active, verified, password and address checks) comes to the verdict of the first, and records exactly the failures the first records |
| Server.Server.LoginInMatch | ovlt-core/src/handlers/login_universal.rs:131-281 | the second text of the login has the recorded and cleared attempts, the stored token and session and the answer that the first has |
| Server.Server.IssueInMatch | ovlt-core/src/handlers/login_universal.rs:212-281 | its MFA prompt, or its access token, refresh token, cleared attempts and session, are those of the first text |
| Server.Server.LoginUniversal | ovlt-core/src/handlers/login_universal.rs:39-307 | refusal, list of tenants, or the login in the one match, with the outcome of the tenant login |
| Server.Server.Refresh | ovlt-core/src/handlers/refresh.rs:32-102 | revoke, then check, then store; every failed check rolls the revocation back |
| Server.Server.Identify | ovlt-core/src/handlers/oauth_as.rs:56-83 | who authorizes: a bearer token or a session cookie, which is touched |
| Server.Server.Authorize | ovlt-core/src/handlers/oauth_as.rs:51-149 | stores a code for client, redirect URI, challenge and user with a 10-minute expiry, or refuses |
| Server.Server.CheckCode | ovlt-core/src/handlers/oauth_as.rs:214-253 | the code of the request if it is on file, unexpired, unused, for the same redirect URI, and the verifier matches its S256 challenge |
| Server.Server.CheckClient | ovlt-core/src/handlers/oauth_as.rs:257-277 | its client if it is active in the code's tenant, the one the code was issued to, and shows its secret if it has one |
| Server.Server.Exchange | ovlt-core/src/handlers/oauth_as.rs:214-380 | all checks of the code exchange in order; marking the code used is rolled back when a later check fails |
| Server.Server.MfaSetup | ovlt-core/src/handlers/mfa.rs:45-79 | replaces whatever secret the account has by a pending one |
| Server.Server.MfaConfirm | ovlt-core/src/handlers/mfa.rs:104-141 | enables the stored secret on a code that matches it |
| Server.Server.MfaDisable | ovlt-core/src/handlers/mfa.rs:161-199 | deletes secret and backup codes on a code of the enabled secret |
| Server.Server.AdminDisableMfa | ovlt-core/src/handlers/mfa.rs:443-468 | if the sender may administer and names a tenant, the account has no secret and no backup code afterwards and every other secret and code is kept, the codes in order; otherwise the reason is answered and nothing changes |
| Server.Server.MfaBackupCodes | ovlt-core/src/handlers/mfa.rs:229-266 | replaces the backup codes on a code of the enabled secret |
| Server.Server.RemoveMfa | ovlt-core/src/handlers/mfa.rs:453-454 | the account has no secret and no backup code left, and every other secret and code is kept, the codes in order |
| Server.Server.VerifyMfaToken | ovlt-core/src/services/token_service.rs:263-305 | decoding under the current, then the previous secret, then the purpose, with the error of each way to fail |
| Server.Server.CheckMfaToken | ovlt-core/src/handlers/mfa.rs:295-306 | the account of this tenant that a valid MFA token names, or the error of the first failing check |
| Server.Server.CheckChallenge | ovlt-core/src/handlers/mfa.rs:290-345 | token, enabled secret, factor, user and address in that order; a backup code is spent even if the user turns out inactive, and given back if the step fails otherwise |
| Server.Server.MfaChallenge | ovlt-core/src/handlers/mfa.rs:290-415 | the challenge and what it issues |
| Server.Server.ForgotPassword | ovlt-core/src/handlers/forgot_password.rs:38-106 | stores a reset token for an active account and answers the same for everybody else |
| Server.Server.ConsumeResetToken | ovlt-core/src/services/one_time_token_service.rs:104-130 | spends a token of the reset kind that is unused and unexpired, else tells why not and changes nothing |
| Server.Server.CheckReset | ovlt-core/src/handlers/reset_password.rs:46-78 | the token is spent before tenant, policy, history and user are looked at |
| Server.Server.ResetPassword | ovlt-core/src/handlers/reset_password.rs:39-104 | new password, history row and revocation of all the user's refresh tokens together, or none of them |
| Server.Server.UpdateUser | ovlt-core/src/handlers/admin_users.rs:224-279 | administrator check, tenant key, new address, history check, new password with its history row and active flag, all together or not at all; uniqueness is kept |
| Server.Server.BeginUpdate | ovlt-core/src/handlers/admin_users.rs:236-261 | tenant key, new address and history check in order, with the address changed only if all of them pass |
| Server.Server.FinishUpdate | ovlt-core/src/handlers/admin_users.rs:258-267 | the new password with its history row, and the active flag |
| Server.Server.ChangeEmail | ovlt-core/src/services/user_service.rs:74-89 | sets address and lookup of a known user unless another account of the tenant has the lookup, and keeps lookups unique |
| Server.Server.CheckAdmin | ovlt-core/src/handlers/admin_auth.rs:31-87 | the account named by the path and the tenant header, or why the sender may not act on it |
| Server.Server.Logout | ovlt-core/src/handlers/logout.rs:38-105 | revokes the token id, the caller's own refresh token and the session cookie |
| Server.Server.TryRevokeAccess | ovlt-core/src/handlers/oauth_revoke.rs:74-92 | revokes the id of the caller's own valid access token |
| Server.Server.TryRevokeRefresh | ovlt-core/src/handlers/oauth_revoke.rs:94-126 | revokes an unrevoked refresh token of the caller's own, in whatever tenant |
| Server.Server.OauthRevoke | ovlt-core/src/handlers/oauth_revoke.rs:30-72 | tries the access form first unless hinted, and always answers success |
| Server.Server.RevokeAll | ovlt-core/src/handlers/revoke.rs:26-36 | revokes all of the caller's refresh tokens in the tenant |
| Server.Server.Introspect | ovlt-core/src/handlers/oauth_as.rs:474-510 | without an admin key not found, without showing it unauthorized, else active with the claims exactly for a valid access token |
| Effects.WithRefreshIs | ovlt-core/src/services/token_service.rs:141-159 | a table is the one after storing a token if and only if keys, new row and other rows are as said there |
| Effects.WithoutBackupsIs | ovlt-core/src/services/mfa_service.rs:86-97 | a list is the one after the deletion if and only if it is the other accounts' codes in order |
| Effects.WithoutMfaIs | ovlt-core/src/handlers/mfa.rs:443-468 | a database is the one after removing an account's second factor if and only if secret and codes are gone and everything else is kept |
| Effects.KeptSinceIs | ovlt-core/src/services/lockout_service.rs:55-62 | a list is the one after the cleanup if and only if it is the attempts from the cutoff on, in order |
| Effects.CleanupIs | ovlt-core/src/main.rs:99-124 | a database is the one after a cleanup if and only if in each of the five tables the unexpired rows, unchanged, are left and nothing else differs |
| Server.Server.RateCheck | ovlt-core/src/services/rate_limit_service.rs:14-36 | counts the request in its bucket and admits it if the count is at most 20; a count beyond 32 bits is an error that changes nothing |
| Server.Server.Cleanup | ovlt-core/src/main.rs:99-124 | a refresh token, token id, session or bucket is on file afterwards if and only if it was and has not expired, unchanged; the login attempts of the last hour, and no others, are kept in their order |
| Server.Server.Handle | ovlt-core/src/main.rs:97-124 | every request does what its specification says and keeps the uniqueness constraints |
| Server.Server.Serve | ovlt-core/src/main.rs:22-142 | serving any sequence of requests produces a valid run from the tables before to the tables after |
| Runs.Obeys | ovlt-core/src/services/token_service.rs:141-199 | every step keeps accounts in their tenant, never clears a revocation, stores new refresh rows only for the token it minted, and touches each table only from the requests that own it |
| Runs.RunOf | ovlt-core/src/main.rs:126-142 | every sequence of requests, at any times, has a run from every database |
| Conditions.AuthenticatesExactly | ovlt-core/src/middleware/auth.rs:21-66 | a bearer is admitted as a user of the tenant if and only if its token is valid, its id is not on file, and it names that user of this tenant or of the master tenant |
| Conditions.TurnedAwayExactly | ovlt-core/src/middleware/auth.rs:21-66 | otherwise it gets a token error exactly for an invalid token, or unreadable ids in one that is not revoked, and unauthorized exactly for a revoked one or one of another tenant |
| Conditions.IdentifiesExactly | ovlt-core/src/handlers/oauth_as.rs:56-83 | somebody is identified for an authorization if and only if a valid unrevoked token names the account or an unexpired session on file stands for it |
| Conditions.AdministersExactly | ovlt-core/src/handlers/admin_auth.rs:31-87 | an administrative request acts on an account if and only if its headers name the tenant and show the admin key, a token of the master tenant, or a SuperAdmin's token of that tenant |
| Conditions.TenantKeyExactly | ovlt-core/src/services/tenant_service.rs:12-29 | a tenant's data key is used if and only if the tenant is on file, active, and the key decrypts; not found and unauthorized tell the other two |
| Answers.TokensAreSound | ovlt-core/src/services/token_service.rs:57-58 | every answer of tokens, from login, universal login, refresh, exchange or challenge: the request's own credential stands for the account; the access token carries its id, decrypted address, the drawn id, iat now, exp after the configured minutes and the granted roles; the refresh token handed out is on file, unrevoked, for the account and the configured days; so is the session |
| Answers.AccessLastsExactly | ovlt-core/src/handlers/login.rs:169-178 | the access token handed out validates if and only if at most its minutes and the leeway have passed since then, and yields exactly those claims; the minutes are the tenant's, the client's or the configured ones |
| Answers.RefreshServedExactly | ovlt-core/src/handlers/refresh.rs:32-102 | a refresh is answered with tokens if and only if the token is on file in the tenant, unrevoked and unexpired, and its account on file there, active, with a readable address; else it is refused, with its error, and changes nothing |
| Answers.HandedOutIsAccepted | ovlt-core/src/handlers/refresh.rs:97-101 | a refresh token that was handed out, while its row stands and its account is served, is accepted if and only if its days have not passed |
| Answers.StoredIsHandedOut | ovlt-core/src/services/token_service.rs:141-159 | a refresh token that comes on file is the one handed out in that step |
| CodeFlow.CodesHaveOrigin | ovlt-core/src/handlers/oauth_as.rs:113-141 | every stored code was put there by an earlier authorization with the same user, client, redirect URI, challenge and expiry |
| CodeFlow.UsedForGood | ovlt-core/src/handlers/oauth_as.rs:280-282 | a code once stored stays, and once used stays used |
| CodeFlow.ExchangeSpendsCode | ovlt-core/src/handlers/oauth_as.rs:214-282 | a token response spends exactly its own unused code; anything else leaves codes alone |
| CodeFlow.EveryResponseWasAuthorized | ovlt-core/src/handlers/oauth_as.rs:214-282 | every token response agrees with an earlier authorization: same user and tenant, same client, the redirect URI, which was registered for it, at most 600 seconds before, with the verifier of its S256 challenge and the client's secret, if it has one |
| CodeFlow.NoAuthorizationServesTwice | ovlt-core/src/handlers/oauth_as.rs:231-282 | no authorization agrees with two token responses |
| CodeFlow.AuthorizationGrantedExactly | ovlt-core/src/handlers/oauth_as.rs:51-149 | a code is issued if and only if somebody is identified and asks for the code flow with S256, a challenge, an active client of the tenant, a redirect URI registered for it, and the code is new; otherwise the reason is answered and no code is stored |
| CodeFlow.ExchangeServedExactly | ovlt-core/src/handlers/oauth_as.rs:214-380 | an exchange is answered with tokens if and only if the code is on file, unused and unexpired with this redirect URI and the verifier of its challenge, it was issued to this client, which is active in the code's tenant and shows its secret if confidential, and the user is on file in that tenant, which is in service, with a readable address; else it is refused, for the code first and then for the client, and changes nothing |
| RefreshFamilies.DeadForGood | ovlt-core/src/services/token_service.rs:174-199 | a revoked token stays revoked in every continuation that does not draw the same value again |
| RefreshFamilies.AcceptedOnce | ovlt-core/src/handlers/refresh.rs:37-48 | no token value is accepted twice in a run |
| RefreshFamilies.FamilyIsALine | ovlt-core/src/handlers/refresh.rs:37-95 | the tokens handed out one for the other from a root on are distinct and all but the newest are revoked, in every state of every run |
| RefreshFamilies.OnlyNewestIsAccepted | ovlt-core/src/handlers/refresh.rs:37-48 | of a family, only the newest token is ever accepted |
| RefreshFamilies.AtMostOneLive | ovlt-core/src/handlers/refresh.rs:37-95 | at most one member of a family is live at any moment |
| RefreshFamilies.RefusedRefreshIsInert | ovlt-core/src/handlers/refresh.rs:39-64 | a refused refresh leaves the whole database unchanged |
| RefreshFamilies.ReuseOnlyRefused | ovlt-core/src/handlers/refresh.rs:41-43 | reuse of a rotated token is refused and ends nothing: the newest member is revoked afterwards if and only if it was before |
| RefreshFamilies.RotationConservesLiveCount | ovlt-core/src/handlers/refresh.rs:47-93 | a successful refresh keeps the user's number of live tokens if the configured lifetime is positive, and lowers it by one otherwise |
| RefreshFamilies.HandedOutIsLive | ovlt-core/src/handlers/refresh.rs:85-101 | the token that a refresh answers with is on file and live if and only if the configured lifetime is positive |
| RefreshFamilies.RotationLeavesOthers | ovlt-core/src/handlers/refresh.rs:47-93 | no other account's live tokens move |
| PasswordResets.RowsAlwaysBelong | ovlt-core/src/services/token_service.rs:141-159 | in every state a refresh row's tenant is its user's tenant |
| PasswordResets.ResetKillsAll | ovlt-core/src/handlers/reset_password.rs:63-89 | right after a successful reset no refresh token of the user is unrevoked, whatever its tenant column |
| PasswordResets.ResetIsFinal | ovlt-core/src/handlers/reset_password.rs:63-89 | every refresh accepted for the account after a reset presents a token drawn after the reset |
| PasswordResets.OldSessionIdentifies | ovlt-core/src/handlers/oauth_as.rs:73-83 | after a reset, in any continuation, a session cookie of the account from before still identifies it at the authorization endpoint if and only if the session is unexpired and was not given up at a logout, if its id is not drawn again |
| PasswordResets.OldTokenIdentifies | ovlt-core/src/handlers/oauth_as.rs:56-72 | after a reset an access token of the account from before identifies it if and only if it is valid and its id was not on file before the reset |
| PasswordResets.OldSessionIsServed | ovlt-core/src/handlers/reset_password.rs:86-87 | a run, for every database and account: a reset, an authorization by a cookie from before it, and an exchange that issues an access token and a refresh token that is not revoked |
| Accounts.RegistersExactly | ovlt-core/src/handlers/register.rs:50-142 | a registration creates the account if and only if registration is open, the password will do and address and id are new: active, unverified, under this address and with exactly this password; where addresses must be verified a code is stored for 24 hours, and if it cannot be the answer is an error and the account stays |
| Accounts.VerifiedExactly | ovlt-core/src/handlers/verify_email.rs:38-67 | a verification marks the account verified and its code used if and only if the code is on file for the account with the address, unused, unexpired and of its kind; else nothing changes |
| Accounts.ResetServedExactly | ovlt-core/src/handlers/reset_password.rs:39-104 | a reset succeeds if and only if its token is on file as a reset token, unused and unexpired, of this tenant and of a user of it, and the new password will do and is none of the last ones; the token is used up even if it does not succeed for the other reasons |
| Accounts.UpdatedExactly | ovlt-core/src/handlers/admin_users.rs:224-279 | an update sets address and lookup, password and active flag of the account as asked, and nothing of any other, if and only if the sender administers the tenant, which is in service, the account is there, the address is no other account's and the password none of the last ones |
| Credentials.ChosenExactly | ovlt-core/src/handlers/reset_password.rs:63-82 | the choices that the password history counts are exactly the resets and updates that succeed for the account |
| Credentials.AccountsMove | ovlt-core/src/handlers/admin_users.rs:224-279 | in every step the row of an account gets another password exactly if a reset or update gives it one, is verified exactly if it was or its code fits, and changes otherwise exactly as an update asks |
| Credentials.AccountsCome | ovlt-core/src/handlers/register.rs:50-142 | an account appears exactly when a registration creates it |
| Credentials.StaysConstrained | ovlt-core/src/services/user_service.rs:27-89 | in every state of every run no two accounts of a tenant have the same address |
| Credentials.ChoiceIsPassword | ovlt-core/src/handlers/reset_password.rs:80-82 | right after a choice exactly the chosen password verifies; in every other step the password on file is the one from before |
| Credentials.PasswordIsLastGiven | ovlt-core/src/handlers/reset_password.rs:80-82 | in every state exactly the password last given to the account, by registration, reset or update, verifies |
| Credentials.VerifiedWasProved | ovlt-core/src/handlers/verify_email.rs:56-58 | an account is verified only because a code of its own was shown before, or was from the start |
| Credentials.LoginServedExactly | ovlt-core/src/handlers/login.rs:72-216 | a login that is not locked out gets past the password if and only if the account with the address is active, verified where that is demanded, readable, and the password verifies: to an MFA prompt with an enabled second factor, to tokens without; wrong passwords and unknown addresses are refused and recorded |
| Credentials.LastGivenLogsIn | ovlt-core/src/handlers/login.rs:125-160 | so whoever may enter gets in exactly with the password last given |
| Credentials.VerifiedEnter | ovlt-core/src/handlers/login.rs:118-121 | where addresses must be verified, whoever gets past a login had shown a code of the account, or was verified from the start |
| OneTimeTokens.ForgotServedExactly | ovlt-core/src/handlers/forgot_password.rs:38-106 | the drawn token is stored for an hour for the active account with the address, as a reset token; for anybody else nothing is stored and the answer is the same |
| OneTimeTokens.OneTimeHasOrigin | ovlt-core/src/services/one_time_token_service.rs:36-102 | every one-time token on file was stored by a request for a reset of its account, for an hour, or by the registration of its account, for a day |
| OneTimeTokens.VerificationFollowsRegistration | ovlt-core/src/services/one_time_token_service.rs:32-79 | a verified address had its code sent at the registration of the same account within the last 24 hours |
| OneTimeTokens.DrawnTokenResets | ovlt-core/src/handlers/forgot_password.rs:60-106 | an unused drawn token resets the account's password for exactly 60 minutes, to any that will do and is none of the last ones, and afterwards exactly that one verifies |
| Revocations.JtiStands | ovlt-core/src/services/token_service.rs:201-230 | a revoked token id stays on file, with its stored expiry, through every step and cleanup up to that expiry |
| Revocations.RevokedMeetsLookup | ovlt-core/src/middleware/auth.rs:33-41 | a request with a valid token whose id is on file is refused and changes nothing if it is one of the seven whose handler looks the id up; the others have the answer and the effect they would have if no id were on file |
| Revocations.RefusesRevokedExactly | ovlt-core/src/handlers/oauth_as.rs:56-72 | a request with a valid token is refused in every database that has its id on file if and only if it is one of those seven, or an administrative call of someone who is no administrator |
| Revocations.RevokedUntilExpiry | ovlt-core/src/middleware/auth.rs:33-41 | that stays so from the revocation until its stored expiry, in every run |
| Revocations.LogoutHoldsAtLookups | ovlt-core/src/handlers/logout.rs:47-65 | and so from a logout with a token of the current secret until the token expires: refused where the id is looked up, overlooked elsewhere |
| Revocations.OauthRevocationHoldsAtLookups | ovlt-core/src/handlers/oauth_revoke.rs:74-92 | and so after its holder revoked it at the revocation endpoint |
| Revocations.OauthRevokeChangesExactly | ovlt-core/src/handlers/oauth_revoke.rs:39-126 | a revocation request of a valid caller, revoked or not, is answered with success, and changes the database if and only if it presents an unrevoked token of the caller's own |
| Revocations.RevokedStillRevokes | ovlt-core/src/handlers/oauth_revoke.rs:51-55 | a run in which a logged-out token revokes its account's refresh token |
| Revocations.RevokedAdminStillServed | ovlt-core/src/handlers/admin_auth.rs:55-87 | a run in which a logged-out administrator's token switches off an account's second factor |
| Revocations.RevokedIntrospectsActive | ovlt-core/src/handlers/oauth_as.rs:490-510 | a run in which a logged-out token is reported as active |
| Revocations.IntrospectionIsValidity | ovlt-core/src/handlers/oauth_as.rs:490-510 | introspection reports a text as active if and only if it is a valid access token at that moment |
| Revocations.LogoutEndsRefresh | ovlt-core/src/handlers/logout.rs:67-74 | the caller's live refresh token given at logout is never accepted again |
| Revocations.SessionsAreDrawn | ovlt-core/src/services/session_service.rs:15-42 | every session that appears carries the id drawn in that step |
| Revocations.SessionsMove | ovlt-core/src/services/session_service.rs:15-87 | in every step a session comes only with the id drawn in it, keeps account and expiry, and goes only by a logout that gives it up or, expired, by a cleanup |
| Revocations.SessionsHaveOrigin | ovlt-core/src/handlers/login.rs:205-216 | every session on file was handed out by an earlier sign-in whose access token names the account the session stands for |
| Revocations.LogoutEndsSession | ovlt-core/src/handlers/logout.rs:86-89 | a session cookie given up at logout authorizes nothing afterwards, unless its id is drawn again |
| TokenTables.TokensEndExactly | ovlt-core/src/services/token_service.rs:161-199 | in every step a refresh token that is not drawn again is revoked if and only if it is shown at an accepted refresh, given up live by its user at logout, revoked by its user, or all tokens of its user in the tenant are, by the user or by a reset; it goes only expired by a cleanup and is as it was otherwise |
| TokenTables.RevokeAllLeavesNone | ovlt-core/src/handlers/revoke.rs:26-36 | a served revocation of all tokens leaves the caller no unrevoked refresh token in the tenant |
| TokenTables.RevokeAllServedExactly | ovlt-core/src/handlers/revoke.rs:26-36 | it is served if and only if somebody of the tenant or the master tenant is signed in |
| TokenTables.IdsMoveExactly | ovlt-core/src/services/token_service.rs:201-242 | in every step an id is on file exactly if it was and is not cleaned up expired, or its bearer logs out, or its holder shows it for revocation; it keeps the expiry it was stored with, which is the token's own unless a token of the previous secret logged out |
| TokenTables.OauthRevokeTellsNothing | ovlt-core/src/handlers/oauth_revoke.rs:30-72 | the revocation endpoint answers everybody with success |
| TokenTables.LogoutServedExactly | ovlt-core/src/handlers/logout.rs:38-105 | a logout succeeds if and only if somebody is signed in, and drops exactly the session of its cookie |
| TokenTables.IntrospectedExactly | ovlt-core/src/handlers/oauth_as.rs:474-510 | introspection answers not found without an admin key, unauthorized unless it is shown, and else the claims of exactly the valid access tokens |
| ActiveAccounts.OthersIssueToActive | ovlt-core/src/handlers/login.rs:113-116 | logins, tenant-less logins, refreshes and challenges issue tokens to active accounts only |
| ActiveAccounts.InactiveServedExactly | ovlt-core/src/handlers/oauth_as.rs:231-310 | an account that is not active gets tokens from an event if and only if the event is a code exchange that passes its checks for the account |
| ActiveAccounts.DeactivatedAccountIsServed | ovlt-core/src/handlers/oauth_as.rs:284-310 | a run, for every database and account: an authorization, the deactivation by an administrator, and an exchange within ten minutes that issues tokens |
| MfaFlow.PromptFollowsPassword | ovlt-core/src/handlers/login.rs:125-160 | an MFA token is handed out only by a login that verified the password of the account it names |
| MfaFlow.ChallengeFollowsLogin | ovlt-core/src/handlers/mfa.rs:295-379 | over any number of rotations of the signing secret, tokens from a challenge are preceded, within 300 seconds plus leeway and under the same secret or the one just replaced, by a password check of the same account, and the step matched TOTP of the enabled secret or used up an unused backup code |
| MfaFlow.OnlyConfirmEnables | ovlt-core/src/services/mfa_service.rs:147-188 | a secret becomes enabled only by a confirmation with a code of that secret |
| MfaFlow.EnabledWasConfirmed | ovlt-core/src/handlers/mfa.rs:111-129 | every enabled secret was confirmed by a valid code against that very secret and has been enabled since |
| MfaFlow.ChallengeFollowsConfirmation | ovlt-core/src/handlers/mfa.rs:310-325 | the secret behind a passed challenge was confirmed before |
| MfaFlow.EnabledUntilEnded | ovlt-core/src/services/mfa_service.rs:147-201 | an enabled secret stops being enabled at an event if and only if the event is an accepted new enrolment of its account, a removal with a code of the secret, or an administrator's removal |
| MfaFlow.LostWasEnded | ovlt-core/src/services/mfa_service.rs:147-201 | a secret enabled in one state and not in a later one was ended in between by one of these three |
| MfaFlow.BearerRemovesFactor | ovlt-core/src/handlers/mfa.rs:45-79 | a run, for every database in which a login is answered with a prompt: the account's bearer token starts an enrolment, and the same login is answered with tokens |
| Factors.CodeMatchesExactly | ovlt-core/src/services/mfa_service.rs:127-145 | a code matches if and only if it is that of a step that began at most a minute ago or begins within half a minute, from half a minute after the epoch on |
| Factors.SecretsMoveExactly | ovlt-core/src/services/mfa_service.rs:147-201 | in every step the TOTP row of every account is the pending secret answered if the account enrols, the same secret enabled if a code of it confirms it, gone if removed with a code or by an administrator, and otherwise as it was |
| Factors.SetupAnswersExactly | ovlt-core/src/handlers/mfa.rs:45-79 | setup answers with the secret it stores if and only if a signed-in user with a readable address enrols |
| Factors.ConfirmAnswersExactly | ovlt-core/src/handlers/mfa.rs:104-141 | a confirmation succeeds if and only if a signed-in user shows a code of the stored secret |
| Factors.RemovedExactly | ovlt-core/src/handlers/mfa.rs:161-199 | a removal with a code of the enabled secret, or by an administrator, leaves the account neither secret nor codes and all others theirs; any other changes nothing |
| Factors.CodesDrawnExactly | ovlt-core/src/handlers/mfa.rs:229-266 | whoever shows a code of the enabled secret, and nobody else, is answered the ten drawn codes, which replace those of the account |
| Factors.ChallengeServedExactly | ovlt-core/src/handlers/mfa.rs:290-345 | a challenge is answered with tokens if and only if a valid MFA token names an account of the tenant with an enabled secret, a code of the secret or an unused backup code is shown, and the account is active with a readable address |
| SingleUse.SameCodeSameHash | ovlt-core/src/services/mfa_service.rs:24-28 | texts that differ only in hyphens and ASCII letter case are the same backup code, whatever the Unicode fold does beyond ASCII |
| SingleUse.SameHashIffSameCode | ovlt-core/src/services/mfa_service.rs:24-28 | two ASCII texts are the same backup code if and only if they differ only in hyphens and letter case |
| SingleUse.NonAsciiVariant | ovlt-core/src/services/mfa_service.rs:24-28 | a letter outside ASCII whose upper case is an ASCII letter stands for that letter |
| SingleUse.DrawnIsCanonical | ovlt-core/src/services/mfa_service.rs:16-28 | a drawn code is stored under its eight letters without the hyphen |
| SingleUse.UnusedPlusConsumedIsTen | ovlt-core/src/services/mfa_service.rs:30-97 | until replaced or deleted, unused codes plus consumptions equal 10, and the codes on file are the ones issued |
| SingleUse.ConsumedWasIssued | ovlt-core/src/services/mfa_service.rs:59-84 | a consumed text has the hash of one of the ten issued codes, folds to that code's eight letters, and if it is ASCII differs from it only in hyphens and case |
| SingleUse.ConsumptionsPayForTokens | ovlt-core/src/handlers/mfa.rs:314-345 | a consumption yields tokens exactly if the user is active, and tokens without a TOTP code cost a backup code |
| SingleUse.SpendingRules | ovlt-core/src/services/one_time_token_service.rs:55-130 | a one-time token is spent only unused, not after its expiry, and for its stored type |
| SingleUse.SpentOnce | ovlt-core/src/services/one_time_token_service.rs:55-130 | no one-time token is spent twice in a run |
| PasswordHistory.HistoryIsChosen | ovlt-core/src/services/password_history_service.rs:39-55 | the history on file is what was there at the start and every password accepted since, in order |
| PasswordHistory.ReusesIffRecent | ovlt-core/src/services/password_history_service.rs:21-34 | the check refuses exactly the last `size` passwords on file |
| PasswordHistory.NewestAreLatest | ovlt-core/src/services/password_history_service.rs:21-26 | with increasing record times the last inserted rows are the latest ones |
| PasswordHistory.WindowIsDistinct | ovlt-core/src/services/password_history_service.rs:11-55 | with history size N any N+1 consecutive accepted passwords are pairwise different, over runs of any length |
| Lockout.CountMoves | ovlt-core/src/services/lockout_service.rs:9-62 | one event adds one to the counted attempts of a name exactly if it fails a login for it, zeroes them if it succeeds, and otherwise only a cleanup can lower them |
| Lockout.FailuresAreBounded | ovlt-core/src/handlers/login.rs:74-138 | with a window of at most 60 minutes, or no attempt allowed, every closed interval of the window's length free of clears holds at most maxAttempts recorded failures of one tenant and address |
| Lockout.LockedLoginIsInert | ovlt-core/src/handlers/login.rs:74-93 | a login on a locked name is refused and changes nothing |
| Lockout.LockedExactly | ovlt-core/src/services/tenant_settings_service.rs:18-31 | locked are the attempts allowed or more within the tenant's window, and five within fifteen minutes where the tenant has no settings |
| Lockout.LockEndsByItself | ovlt-core/src/services/lockout_service.rs:9-24 | requests made while locked never extend the lock |
| Lockout.LockedUntil | ovlt-core/src/services/lockout_service.rs:9-24 | a name is locked at a time if and only if that time is at most one window after the maxAttempts-th latest of its attempts |
| Lockout.NthLatestExists | ovlt-core/src/services/lockout_service.rs:9-24 | a name that is locked at some time has such an attempt on file |
| Lockout.LockReleasesExactly | ovlt-core/src/handlers/login.rs:74-93 | that instant is the release: whatever is requested up to it, with no cleanup more than an hour after the attempt, the name is locked if and only if it has not passed |
| Lockout.CleanupReleases | ovlt-core/src/services/lockout_service.rs:55-62 | a cleanup more than an hour after that attempt releases the name at once |
| Lockout.SpreadExceeds | ovlt-core/src/services/lockout_service.rs:55-62 | the run that exceeds the bound: maxAttempts wrong passwords at one moment, the cleanup a second past the hour, and one more |
| Lockout.BoundHoldsExactly | ovlt-core/src/services/lockout_service.rs:9-62 | for every database, tenant in service, address and wrong password: the bound holds in all runs if and only if the window is at most 60 minutes or maxAttempts is zero |
| CleanupUnseen.CleanupSim | ovlt-core/src/main.rs:99-124 | a cleanup of one of two related databases keeps them related |
| CleanupUnseen.StepSim | ovlt-core/src/services/token_service.rs:161-242 | every punctual request gets the same answer from the cleaned and the uncleaned database and keeps them related |
| CleanupUnseen.CleanupIsUnobservable | ovlt-core/src/main.rs:99-124 | with lockout windows of at most an hour, a run with cleanups anywhere answers every request as the run without them |
| CleanupUnseen.CleanupRevivesExactly | ovlt-core/src/services/token_service.rs:216-230 | cleanup changes what an authenticated request is told if and only if the token is valid, revoked, in the right tenant, and its stored expiry lies before the cleanup |
| CleanupUnseen.CleanupRevivesAuthorizer | ovlt-core/src/handlers/oauth_as.rs:56-83 | the same for a bearer that asks for an authorization code, where no tenant is compared: exactly if the token is valid, revoked, and its stored expiry lies before the cleanup |
| CleanupUnseen.OwnExpiryIsEnough | ovlt-core/src/services/token_service.rs:201-230 | a revocation stored with the token's own expiry is not lost before that expiry |
| CleanupUnseen.RevivedWithinLeeway | ovlt-core/src/services/token_service.rs:108-131 | within the leeway after its expiry a revoked token is accepted again after a cleanup |
| CleanupUnseen.RevivedAfterRotation | ovlt-core/src/handlers/logout.rs:47-65 | a logged-out token of the previous secret is accepted again after the next cleanup |
| UniversalLogin.HoldersAreMatches | ovlt-core/src/handlers/login_universal.rs:49-93 | the matches are the tenants that hold the address, in table order |
| UniversalLogin.UniversalRefinesLogin | ovlt-core/src/handlers/login_universal.rs:39-307 | nobody holds the address: refused without a trace; several: exactly they are offered, in order; one: state and answer of the login there |
| UniversalLogin.IssuedOnlyWhereKnown | ovlt-core/src/handlers/login_universal.rs:89-135 | anything but a refusal means some active tenant knows the address |
| UniversalLogin.UniversalServedExactly | ovlt-core/src/handlers/login_universal.rs:131-281 | where exactly one tenant knows the address, a login gets past the password if and only if the account may enter there and the password verifies |
| Rbac.AssignOnlyGrows | ovlt-core/src/services/role_service.rs:106-123 | after assigning a role a user has a permission name exactly if it was there before or the newly inserted role grants it |
| Rbac.RevokeRemovesExactly | ovlt-core/src/services/role_service.rs:125-134 | after revoking a role a user has exactly the names reachable through another role |
| Rbac.GrantThenRevokeIsNothing | ovlt-core/src/services/permission_service.rs:93-121 | granting a permission to a role and revoking it restores the tables |
| Rbac.ClientRolesAreRealmRoles | ovlt-core/src/services/role_service.rs:162-201 | client-scoped role names are among the user's realm role names |
| Rbac.Sort | ovlt-core/src/services/permission_service.rs:161 | sorted by code points and a permutation |
| Rbac.Dedup | ovlt-core/src/services/permission_service.rs:162 | strictly ascending with the same elements |
| Rbac.Store.ListPermissionNames | ovlt-core/src/services/permission_service.rs:125-164 | strictly ascending, and exactly the names the user's roles grant in the tenant |
| Rbac.Store.ListRoleNames | ovlt-core/src/services/role_service.rs:69-104 | exactly the names of the tenant's roles the user bears |
| Rbac.Store.ListClientRoleNames | ovlt-core/src/services/role_service.rs:162-201 | exactly the names of the roles shared by user and client in the tenant |
| Rbac.Store.Execute | ovlt-core/src/services/role_service.rs:19-231 | which roles, permissions and links are on file after an operation, by row: a role or permission stays unless deleted in its tenant and appears if created with a free name; a link stays unless revoked in its tenant or taken along with its role or permission, and appears if assigned between known ids; every row keeps its tenant |
| Rbac.ApplyIs | ovlt-core/src/services/permission_service.rs:16-123 | tables are those after an operation if and only if that is the case of them |
| AdminAuth.ScopeNeedsToken | ovlt-core/src/handlers/admin_auth.rs:31-87 | tenant-scoped access needs a valid token with the SuperAdmin role and that tenant, not the master |
| AdminAuth.ScopesExactly | ovlt-core/src/handlers/admin_auth.rs:31-87 | every tenant is open exactly to the admin key and to valid tokens of the master tenant, and only its own to a SuperAdmin's token whose header names no other |
| TenantIsolation.ScopedReachesOwnTenant | ovlt-core/src/handlers/admin_auth.rs:71-83 | a scoped call reaches a transaction exactly when it names its own tenant, and then that one |
| TenantIsolation.TokenCannotRoam | ovlt-core/src/handlers/admin_auth.rs:36-87 | without the admin key, a token of a tenant other than the master reaches at most its own tenant |
| TenantIsolation.QueriesSeeOwnRows | ovlt-core/src/db.rs:13-26 | roles, client roles and permissions of a user in a tenant depend only on that tenant's rows |
| TenantIsolation.OtherViewsStand | ovlt-core/migration/src/m20240101_000012_roles.rs:21-38 | one operation in a tenant's transaction leaves every other tenant's visible rows as they were, if links stay within tenants |
| TenantIsolation.TenantsAreIsolated | ovlt-core/src/handlers/admin_roles.rs:19-29 | no mix of calls, by whatever administrators, that reaches other tenants only and assigns ids of the tenant it reaches changes anybody's roles or permissions in this one |
| TenantIsolation.ScopedCallsStayOut | ovlt-core/src/handlers/admin_auth.rs:71-83 | calls of administrators scoped to any other tenants that assign their own ids are such a mix |
| TenantIsolation.ViewChangesExactly | ovlt-core/migration/src/m20240101_000012_roles.rs:28-34 | an operation changes another tenant's visible rows if and only if it deletes a role or a permission of its tenant that one of the other tenant's links refers to |
| TenantIsolation.BorrowedRoleCrosses | ovlt-core/src/services/role_service.rs:106-123 | a run that meets it: one tenant's administrator assigns another tenant's role, that tenant's administrator deletes it, and a permission is lost |
| TenantIsolation.BorrowedPermissionCrosses | ovlt-core/src/services/permission_service.rs:93-110 | and one with a permission |
| TenantKeyCache.Middleware.Answer | ovlt-core/src/middleware/tenant.rs:21-69 | a valid cached key is used, anything else is evicted, decrypted anew and cached for 300 seconds |
| TenantKeyCache.EntriesHaveOrigin | ovlt-core/src/state.rs:11-32 | a cache entry is the decryption of the key stored when it was made, and expires 300 seconds later |
| TenantKeyCache.KeysAreRecent | ovlt-core/src/middleware/tenant.rs:44-61 | every key handed out was the stored one at the request or less than 300 seconds before, however the table changes |
| TenantKeyCache.ReplacedKeyDies | ovlt-core/src/middleware/tenant.rs:44-61 | 300 seconds after a key was replaced no answer uses the old one |
| TenantKeyCache.CacheIsCoherent | ovlt-core/src/middleware/tenant.rs:28-61 | while stored keys stand, cached and direct answers agree, rejections included, in every reachable state |
| TenantKeyCache.KeysGoToActiveTenants | ovlt-core/src/middleware/tenant.rs:28-44 | a key is handed out only for an active tenant on file that the headers name, by id if the id header parses and by slug otherwise |
| TenantKeyCache.AnsweredExactly | ovlt-core/src/middleware/tenant.rs:28-61 | while stored keys stand, it is exactly the stored key of that tenant, if it can be decrypted |
| SignedState.DecodeEncode | ovlt-core/src/services/oauth_service.rs:27-36 | base64url decoding undoes encoding |
| SignedState.EncodeDecode | ovlt-core/src/services/oauth_service.rs:36 | every accepted text is the encoding of what it decodes to |
| SignedState.VerifyGenerate | ovlt-core/src/services/oauth_service.rs:27-49 | verifying a generated state returns its tenant, for every tenant, nonce, key and mac |
| SignedState.AcceptedIffSigned | ovlt-core/src/services/oauth_service.rs:35-49 | a text is accepted for a tenant if and only if it encodes a payload followed by a colon and the payload's mac, and the first field names the tenant |
| SignedState.OnePayload | ovlt-core/src/services/oauth_service.rs:37-40 | the split at the last colon is unambiguous |
| SignedState.OtherKeysRefuse | ovlt-core/src/services/oauth_service.rs:42-45 | a state is refused under a key that gives its payload another mac |
| OtpAuth.DecodesIffLatin | ovlt-core/src/services/mfa_service.rs:116-125 | percent-decoding undoes the encoding if and only if all code points are below 256 |
| OtpAuth.BeyondLatin | ovlt-core/src/services/mfa_service.rs:122 | the letter U+0100 is printed with three digits and read back as two other characters |
| OtpAuth.EncodedIsPlain | ovlt-core/src/services/mfa_service.rs:116-125 | encoded text contains no separator |
| OtpAuth.UriReadsBack | ovlt-core/src/services/mfa_service.rs:106-125 | for a base32 secret the URI reads back as secret, e-mail and issuer if and only if e-mail and issuer are below code point 256 |

## Left out

- CodeFlow.NoAuthorizationServesTwice: about serial requests, because the source reads the code row before the transaction that marks it used.
- RefreshFamilies.FamilyIsALine: assumes that random tokens do not repeat, and the model keys the refresh table by token hash accordingly.
- CleanupUnseen.CleanupIsUnobservable: about requests that show a revoked token no later than its stored expiry and draw new session ids; what happens otherwise is CleanupUnseen.CleanupRevivesExactly.
- Social login, WebAuthn and the client-credentials grant issue tokens too; as issuers they are not part of the model (client tokens appear in Jwt).
- User creation and deactivation by their own administrative endpoints, and administrators' one-time codes and session deletions: more steps of kinds already present (an update deactivates too).
- Request-body validation, cookie and header syntax, password format rules: formatOk stands for the password policy's verdict.
- one_time_token_service::cleanup_expired is never called by the source and has no step here.
- HTTP, mail, audit rows, OpenAPI, id_token signing and the command-line client.
- Interleaving of the statements of two handlers and database failures, except for the rate limiter's single statement.
