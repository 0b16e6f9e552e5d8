# Verified model of the NestJS Prisma starter kit

A Dafny model of the stateful parts of the starter kit and proofs about them over whole
runs: sessions, lockout and password reset in `AuthService`; the settings cache; the two
storage providers; chunked seeding; the duration parsers. `dafny verify dfyconfig.toml`
checks the project.

## How the model is laid out

- `AuthTables` holds the rows of the three tables (a row's id is its position) and the table
  operations. `AuthSteps` gives each request as one atomic step on the tables, in the branch
  order of the source, and `Run` as a sequence of steps. An `Outcome` names the branch a step
  took and for whom. `AuthServices` is the service itself: a class with the tables as fields, opened
  on any tables that satisfy the invariant, one method per request, whose call history is proved to
  be such a run, so everything proved about runs holds of it. Its `Environment` method stands for
  what others do: the clock moves on, or an administrator changes a user row.
- `Requests` says, over the fields of the stored rows, when each request succeeds, how every other
  case is refused, and what each case leaves behind; no branch of a step is mentioned there.
- `AuthInvariants`, `Sessions`, `Credentials`, `Lifecycles` and `NonInterference` prove properties
  of runs of atomic requests from any state that satisfies the invariant; the empty tables do
  (`Sessions.EmptyTables`).
- `Interleaving` lets any number of requests be in flight, each advancing one database statement
  at a time on rows it read earlier (a `$transaction` is one statement). `Races` proves what
  survives, shows by schedules what does not, and proves that requests run one by one are
  exactly the atomic steps. `Chains` says exactly which schedules keep one live token per chain and
  exactly when a mass revocation is final; `Guessing` bounds the guess rate of overlapping logins.
- `Settings` has the cached service as a class over a row and a cache entry, and a shared
  system of processes, Redis failures and direct row edits.
- `Paths` and `Storage`, `Seeding`, and `Durations` cover the supporting cores.

Hashing is an injective constructor (`Sha256`, `Bcrypt`). Random values are arguments of the
request, and a collision is a unique-column violation that leaves the tables as they were, so
no freshness is assumed except where a theorem says so (`NonInterference.Unused`). The
clock is a field that only moves forward; the current settings, the outcome of Redis calls and
the row an unordered `findFirst` picks are arguments that range over all values. Each token
carries a history record (`Issue`: chain, depth, parent, time) that no operation reads.

## Where the code and its comments differ

The model follows the code.

- src/auth/auth.service.ts:370-372 says that every gate re-checks `deletedAt`. The google-id
  branch of the lookup at line 249 does not: `Credentials.DeletedRowGetsTokenExactlyWhen` gives the
  exact requests, `Credentials.DeletedAccountLogsIn` a run from empty tables in which it happens.
- src/auth/auth.service.ts:410-413 says that a parallel burst cannot slip past the lockout
  threshold. No increment is lost (`Races.CounterNeverLosesAttempts`), but a burst compares all its
  passwords before the first increment (`Guessing.BurstPassesThreshold`). What does hold, by the
  number of logins in flight at once, is `Guessing.OverlappingGuessRate`, and
  `Guessing.BurstAttainsRate` shows that it cannot be improved.
- src/settings/settings.service.ts:61-63 says a read after an update never serves the old value.
  It does when the cache write failed (`Settings.FailedWriteServesStale`) or when a slow reader
  writes back last (`Settings.SlowReaderCachesStale`). `Settings.FreshForGoodExactlyWhen` says
  exactly when it does not; `Settings.BoundedStaleness` gives the bound that always holds.
- Reset tokens are one-time and chains have one live token when requests are atomic. Requests
  that overlap can break both, because the transactions write by id without looking at
  `revokedAt` or `usedAt` again; `Chains.OneLiveTokenExactlyWhen` and
  `Races.SpentOnceExactlyWhen` say exactly when. For the same reason a rotation in flight can
  outlive a mass revocation; `Chains.MassRevocationFinalExactlyWhen` says exactly when.
- An upload with an extension outside the filename alphabet is stored under a key that no read
  accepts (`Storage.UploadReadableExactlyWhen`, `Storage.UnreadableUpload`).

## Model

| member | source | states |
|---|---|---|
| AuthServices.AuthService.constructor | src/auth/auth.service.ts:25-42 | a service attaches to tables that may already hold rows, any that satisfy the invariant, leaves them as they are, and takes its refresh lifetime from the configured duration |
| AuthServices.AuthService.Register | src/auth/auth.service.ts:44-71 | new tables and outcome are those of the atomic step: refused when registration is off or the lower-cased email exists, otherwise one new user |
| AuthServices.AuthService.Login | src/auth/auth.service.ts:73-140 | the atomic step, branch by branch: unknown, deactivated, locked, wrong password counted, rolled back on a hash collision, or counter cleared and a token created together |
| AuthServices.AuthService.RecordFailedAttempt | src/auth/auth.service.ts:409-427 | counts one attempt and sets the lock once the new count reaches the maximum |
| AuthServices.AuthService.Refresh | src/auth/auth.service.ts:142-211 | the atomic step: replay revokes the user's tokens, expiry revokes the one, an unusable owner changes nothing, otherwise rotation |
| AuthServices.AuthService.RotateToken | src/auth/auth.service.ts:193-208 | the presented token is revoked and its successor appended with the same owner |
| AuthServices.AuthService.CreateRefreshToken | src/auth/auth.service.ts:303-311 | appends a live token exactly when its hash is new |
| AuthServices.AuthService.RefreshExpiry | src/auth/auth.service.ts:444-455 | a token created now expires one configured lifetime from now |
| AuthServices.AuthService.Logout | src/auth/auth.service.ts:213-225 | revokes the presented token if it is live, otherwise changes nothing |
| AuthServices.AuthService.LogoutAll | src/auth/auth.service.ts:227-234 | revokes the user's live tokens and no others |
| AuthServices.AuthService.GoogleLogin | src/auth/auth.service.ts:236-316 | the atomic step: create, link or keep the account, then refuse a deactivated one or issue a token |
| AuthServices.AuthService.SettleAccount | src/auth/auth.service.ts:246-301 | the account is created, linked or kept as in the atomic step, or refused by a unique column with nothing changed |
| AuthServices.AuthService.ForgotPassword | src/auth/auth.service.ts:318-356 | one unspent reset token for an existing active user, otherwise nothing |
| AuthServices.AuthService.ResetPassword | src/auth/auth.service.ts:358-407 | the atomic step: refused for a missing, used, expired or ownerless token, otherwise the three writes together |
| AuthServices.AuthService.KeepsInvariant | prisma/schema.prisma:9-56 | the invariant of runs holds of every service object after any calls |
| AuthServices.AuthService.OneLiveTokenPerChain | src/auth/auth.service.ts:193-208 | in every service object an unrevoked token is the newest and only live one of its chain |
| AuthServices.AuthService.ReplayIsDetected | src/auth/auth.service.ts:162-171 | a token that any earlier call on the object accepted is detected as replayed when presented now, and that ends all sessions of that user and of no other |
| AuthServices.AuthService.RevokedForGood | src/auth/auth.service.ts:227-234 | no token from before an earlier call that revoked all of a user is live in the object now |
| Common.ToLowerSpells | src/auth/auth.service.ts:53-54 | letter by letter, the lower case of A to Z is a to z, and other characters stay |
| Requests.RegisterCases | src/auth/auth.service.ts:44-71 | refused when switched off or when any row, deleted or not, has the lower-cased address, with nothing changed; otherwise one new active row with the given name and password, role USER, zero counter and no lock |
| Requests.LoginCases | src/auth/auth.service.ts:86-140 | for an address that an undeleted row has: deactivated, locked, wrong password counted and locked from the maximum on, random value taken, or logged in, each decided by that row's fields, with the whole new state |
| Requests.LoginUnknown | src/auth/auth.service.ts:77-98 | an address no undeleted row has is refused and nothing changes |
| Requests.RefreshCases | src/auth/auth.service.ts:162-210 | for a stored value, by its row: revoked means replay and the owner's tokens revoked; expired means that row alone revoked; deleted or inactive owner means refused with nothing changed; otherwise the row is revoked and its successor added |
| Requests.RefreshUnknown | src/auth/auth.service.ts:148-160 | a value that is not stored is refused and nothing changes |
| Requests.LogoutEffect | src/auth/auth.service.ts:213-225 | exactly the live row with the presented value is revoked, now, and no other row of any table changes; without one nothing changes |
| Requests.LogoutExactlyWhen | src/auth/auth.service.ts:213-219 | a logout revokes a token of user u iff an unrevoked row with the presented value belongs to u |
| Requests.LogoutAllEffect | src/auth/auth.service.ts:227-231 | exactly the live tokens of the user are revoked, now, and nothing else changes |
| Requests.GoogleDisabledChangesNothing | src/auth/auth.service.ts:236-244 | a disabled Google login creates and links no account |
| Requests.GoogleCreates | src/auth/auth.service.ts:246-316 | a profile that matches no row gets a new active account with its name, lower-cased address and google id and no password, and then a token; a deleted row with the address refuses it |
| Requests.GoogleUses | src/auth/auth.service.ts:246-316 | a profile that matches a row is logged in to a matching row of the database's choice, linked first if it had another google id, refused if a second row has the google id or if the row is deactivated |
| Requests.ForgotExactlyWhen | src/auth/auth.service.ts:329-347 | a reset token is created for u iff u is active and undeleted, has the address, and the random value is new; the token is u's, unspent, and lasts the configured time; in every other case nothing changes |
| Requests.ResetCases | src/auth/auth.service.ts:358-407 | an unspent, unexpired token of an active, undeleted account sets that row's password, clears its counter and lock, spends the token and revokes the user's tokens; in every other case the answer is a refusal and nothing changes |
| Requests.ResetExactlyWhen | src/auth/auth.service.ts:366-383 | the password of u is reset iff such a token of u has the presented value |
| Requests.EnvironmentEffect | prisma/schema.prisma:14-19 | an administrator's change or a clock tick touches its one column and nothing else |
| AuthInvariants.StepInv | src/auth/auth.service.ts:44-427 | every request keeps hashes, emails and google ids unique, emails lower-case, chains rooted, single-tipped and on time |
| AuthInvariants.StepTokens | src/auth/auth.service.ts:120-234 | the exact change of the token table that goes with each outcome |
| AuthInvariants.StepLater | src/auth/auth.service.ts:162-224 | no request takes back a revocation or a use, moves a row to another user, or changes an email |
| Sessions.RunInv | src/auth/auth.service.ts:44-427 | the invariant holds in every reachable state, and nothing is forgotten between any two states of a run |
| Sessions.OneLiveTipPerChain | src/auth/auth.service.ts:193-208 | in every reachable state an unrevoked token is the newest and deepest of its chain, all others of the chain are revoked |
| Sessions.ChainsGrowByOne | src/auth/auth.service.ts:120-208 | a login or Google login starts a chain, a refresh extends the tip of the presented token's chain by one, nothing else adds a token |
| Sessions.ChainTiming | src/auth/auth.service.ts:173-207 | consecutive accepted refreshes are at most one lifetime apart; after n rotations a refresh comes no later than login + (n + 1) lifetimes |
| Sessions.ReuseEndsEverySession | src/auth/auth.service.ts:162-171 | a token accepted once and presented again any number of steps later issues nothing, leaves that user no live token and other users' tokens as they were |
| Sessions.MassRevocation | src/auth/auth.service.ts:227-234 | a replay, a logout-all or a reset leaves the user zero live tokens and every user, token and reset row of other users unchanged |
| Sessions.IssuingStep | src/auth/auth.service.ts:120-135 | every token of a run was issued by a login of its owner if it heads a chain, and by a refresh of its owner otherwise |
| Sessions.MassRevocationIsFinal | src/auth/auth.service.ts:387-404 | after mass revocation no older token is ever live again, and every later accepted refresh of the user hangs in a chain that a later login of that user started |
| Sessions.SessionConservation | src/auth/auth.service.ts:173-225 | between mass revocations live sessions = start + logins + Google logins - logouts - expiries; refreshes do not count |
| Credentials.ResetEffect | src/auth/auth.service.ts:387-404 | a reset spends an unused, unexpired token of the user and leaves the new password, counter zero, no lock, no session, other users' rows unchanged |
| Credentials.ResetTokenUsedOnce | src/auth/auth.service.ts:366-368 | two successful resets of one run never present the same token |
| Credentials.ResetsMapOneToOne | src/auth/auth.service.ts:338-347 | successful resets map one-to-one into earlier forgot-password requests of the same user, each within the token lifetime |
| Credentials.AccountsOverRuns | prisma/schema.prisma:11-16 | over any run emails are lower-case, unique and never change, and google ids are unique |
| Credentials.RelinksExactlyWhen | src/auth/auth.service.ts:284-291 | a request changes the google id of an existing row iff it is an enabled Google login that picks the row and whose google id nobody has |
| Credentials.SameGoogleAccount | src/auth/auth.service.ts:246-291 | whichever row the lookup picks, two successful Google logins with one google id return one account unless that row was given another google id in between |
| Credentials.WhoGetsTokens | src/auth/auth.service.ts:248-251 | login and refresh issue only to active, undeleted users; Google login never to a deactivated one, and to a soft-deleted one only when the lookup picked it by google id |
| Credentials.DeletedRowGetsTokenExactlyWhen | src/auth/auth.service.ts:246-301 | a soft-deleted row is issued a token iff the request is an enabled Google login whose lookup picks it, it is active and the random value is new |
| Credentials.DeletedAccountLogsIn | src/auth/auth.service.ts:248-251 | from empty tables: Google login, soft-deletion, the same Google login again, which succeeds for the deleted row |
| Credentials.GuessRateBound | src/auth/auth.service.ts:103-116 | for atomic requests, k compared wrong passwords without a success in between take at least (k - maximum) lock durations |
| Lifecycles.LoginSucceedsExactlyWhen | src/auth/auth.service.ts:77-135 | a password login succeeds for a user iff address and password match, the account is usable and not locked and the random value is new; it clears counter and lock and touches no other row |
| Lifecycles.RegisterThenLogin | src/auth/auth.service.ts:44-58 | while registration is on, an address no row has can be registered and logged in with at once, however it is capitalised |
| Lifecycles.SessionSurvives | src/auth/auth.service.ts:173-208 | an issued token is accepted any number of steps later unless presented before, mass-revoked, past its lifetime or its account unusable; other users cannot end it |
| Lifecycles.LogoutEndsSession | src/auth/auth.service.ts:213-219 | after a live token was logged out, whatever happens next, presenting it issues nothing and is taken for a replay |
| Lifecycles.ResetRoundTrip | src/auth/auth.service.ts:329-404 | the token an active account asked for, not presented before, resets the password within its lifetime, and the new password then opens the account even if it was locked |
| NonInterference.NonInterference | src/auth/auth.service.ts:73-234 | a user's rows and answers after a mixed run equal those of the run without the other users' steps |
| NonInterference.StepsCommute | src/auth/auth.service.ts:318-407 | steps of different users commute in their effect on every user's rows |
| Interleaving.NextInv | src/auth/auth.service.ts:142-211 | every statement of every request in flight keeps the rotation forest and its chain roots, unique hashes, emails and google ids, lower-case emails and row ownership, and forgets nothing |
| Races.CopiesDecide | src/auth/auth.service.ts:86-118 | after its lookup a login, refresh or reset judges the row as it read it, whatever has become of it since |
| Races.GoogleCopyDecides | src/auth/auth.service.ts:284-296 | a Google login that found its google id in the row writes no account and judges activity by the row as it read it |
| Races.AccountsDecide | src/auth/auth.service.ts:182-190 | a refresh in flight passes its account check iff the account is active and undeleted at that statement; so does a reset |
| Races.CounterNeverLosesAttempts | src/auth/auth.service.ts:409-427 | under any schedule the counter equals the increments since the last zeroing, and at the maximum the account is locked or a lock write is pending |
| Races.LiveTokensAreLeaves | src/auth/auth.service.ts:193-198 | under any schedule a revocation is never cleared and a token with a child is revoked |
| Races.LateReplayNeverIssues | src/auth/auth.service.ts:148-171 | a refresh that looks its token up after a committed rotation of it can only detect the reuse |
| Races.ReplayRevokesForGood | src/auth/auth.service.ts:164-167 | once its mass revocation has run, no token of that user from before it is ever live again |
| Races.RefreshRaceForksChain | src/auth/auth.service.ts:182-208 | two overlapping refreshes of one live token both succeed and leave two live tokens in one chain |
| Races.RotationForksExactlyWhen | src/auth/auth.service.ts:194-198 | one rotation transaction keeps one live token per chain iff its token is still unrevoked at commit or the chain has no live token |
| Races.ResetRaceSpendsTokenTwice | src/auth/auth.service.ts:361-397 | two overlapping resets with one unspent token both succeed |
| Races.UsedMeansSpent | src/auth/auth.service.ts:393-397 | under any schedule a reset token is marked used iff a reset with it has committed |
| Races.SpentOnceExactlyWhen | src/auth/auth.service.ts:393-397 | a reset commit is its token's only one iff it finds the token unmarked |
| Races.InvSound | src/auth/auth.service.ts:193-208 | every state that atomic requests reach is a sound start for requests in flight together |
| Races.UninterruptedIsAtomic | src/auth/auth.service.ts:73-427 | a request whose statements run without interruption has the effect and outcome of its atomic step |
| Races.OneByOneIsRun | src/auth/auth.service.ts:73-427 | requests scheduled one by one leave the tables the run of atomic steps leaves |
| Chains.OneLiveTokenExactlyWhen | src/auth/auth.service.ts:182-208 | a schedule keeps at most one live token per chain after every action iff each rotation committed in it finds its token unrevoked or its chain dead; no other statement can fork a chain |
| Chains.MassRevocationFinalExactlyWhen | src/auth/auth.service.ts:173-208 | with all tokens of a user revoked, under every schedule the old ones stay revoked and newer ones hang in newer chains, iff no refresh of the user in flight can still commit its rotation |
| Chains.MassStatementFinalExactlyWhen | src/auth/auth.service.ts:162-234 | a replay, a logout-all or a reset ends the sessions of its user for good iff at that moment no other process is a refresh of that user past its lookup that can still commit |
| Chains.LiveTokensComeFromLaterLogins | src/auth/auth.service.ts:120-135 | if so, every later live token of the user hangs in a chain that a login of that user committed in the schedule |
| Guessing.OverlappingGuessRate | src/auth/auth.service.ts:103-116 | under any schedule with no success and at most m logins of the user in flight, k compared wrong passwords take time t with (k - maximum + 1 - m) lock durations <= m t; m = 1 gives the bound of atomic requests |
| Guessing.BurstAttainsRate | src/auth/auth.service.ts:409-427 | that bound is attained for every m: maximum - 1 + m passwords compared at one moment |
| Guessing.BurstPassesThreshold | src/auth/auth.service.ts:409-413 | a burst of more logins than the maximum compares every password before any failure is recorded and exceeds the bound of atomic requests |
| Settings.SettingsService.GetSettings | src/settings/settings.service.ts:38-51 | a hit answers the cached value and changes nothing, a miss answers row or fallback and refreshes the cache if the write succeeds |
| Settings.SettingsService.UpdateSettings | src/settings/settings.service.ts:53-67 | each field becomes the given value, else the stored one, else on; the new row is answered and written through |
| Settings.SettingsService.ReadCache | src/settings/settings.service.ts:69-78 | a failed, missing or expired read is a miss |
| Settings.SettingsService.WriteCache | src/settings/settings.service.ts:80-92 | a successful write stores the value for 300 seconds, a failed one changes nothing |
| Settings.UpdateFields | src/settings/settings.service.ts:53-59 | each field of the answer and of the row is the one the update gives, else the one before, else on |
| Settings.RegistrationIsLastGiven | src/settings/settings.service.ts:53-59 | over any edit-free run registration is what the last update naming it gave, whatever Redis does |
| Settings.RegistrationIsKept | src/settings/settings.service.ts:53-59 | a run whose updates do not name it leaves registration as it was, on if there was no row |
| Settings.GoogleLoginIsLastGiven | src/settings/settings.service.ts:53-59 | the same for the Google login flag |
| Settings.GoogleLoginIsKept | src/settings/settings.service.ts:53-59 | the same for the Google login flag |
| Settings.MissAnswersRow | src/settings/settings.service.ts:42-50 | a miss answers the row unchanged, both fields on when there is none |
| Settings.AnswersForFiveMinutes | src/settings/settings.constants.ts:4-11 | an answer written to the cache is what every read answers for 300 seconds, whatever becomes of the row, and not after |
| Settings.UninterruptedGet | src/settings/settings.service.ts:38-51 | a read whose statements are not interrupted is the atomic read |
| Settings.UninterruptedUpdate | src/settings/settings.service.ts:53-67 | an update whose statements are not interrupted is the atomic update |
| Settings.RowIsFold | src/settings/settings.service.ts:54-59 | without direct edits the effective row is the fold of all updates over row or fallback, whatever Redis does |
| Settings.EveryAnswerIsFold | src/settings/settings.service.ts:38-67 | with no failed cache write and no direct edit every answer of a run is exactly that fold, hit or miss |
| Settings.UpdateCoherentExactlyWhen | src/settings/settings.service.ts:61-64 | for one update taken as a single step: it leaves no stale entry iff its cache write succeeded, nothing was cached, or the cached value already agrees |
| Settings.FreshForGoodExactlyWhen | src/settings/settings.service.ts:38-67 | from its own successful cache write until the next update or edit, every read answers the updated value under every schedule iff no request held another value read earlier when the row was updated |
| Settings.FailedWriteServesStale | src/settings/settings.service.ts:88-91 | after a failed cache write the next read answers the value from before the update |
| Settings.BoundedStaleness | src/settings/settings.constants.ts:4-11 | under any interleaving, failure and edit, an answer at t was the effective row at some moment in [t - 300 s - d, t], d being the longest gap between a database statement and its cache write |
| Settings.BoundedStalenessFromDeployment | src/settings/settings.constants.ts:4-11 | the bound holds of every answer since a deployment with an empty cache |
| Settings.SlowReaderCachesStale | src/settings/settings.service.ts:42-48 | a reader overtaken by an update leaves the old value cached even if every Redis call succeeds |
| Storage.LocalAcceptsExactly | src/storage/providers/local-storage.provider.ts:68-90 | the local provider accepts exactly the keys S3 accepts whose filename is not `..`, none under `/`, and where each leads |
| Storage.Containment | src/storage/providers/local-storage.provider.ts:84-87 | an accepted key leads to a normalised path strictly inside the root, at most two levels down |
| Storage.KeysDoNotCollide | src/storage/providers/local-storage.provider.ts:68-90 | distinct accepted keys lead to distinct paths |
| Storage.ExtNameExactly | src/storage/providers/local-storage.provider.ts:26-26 | the extension runs from the last dot of the name |
| Storage.ExtNameNone | src/storage/providers/local-storage.provider.ts:26-26 | a name without a dot after its first character has none, nor has `..` |
| Storage.UploadKey | src/storage/providers/local-storage.provider.ts:26-32 | the key of an upload is the folder, the random name and the lower-cased extension of the original name, whatever directory that names |
| Storage.UploadReadableExactlyWhen | src/storage/providers/local-storage.provider.ts:21-40 | an uploaded key leads back to the path written iff its extension fits the filename alphabet and length (and the root is not `/`) |
| Storage.UnreadableUpload | src/storage/providers/local-storage.provider.ts:26-32 | a file named `a.+` is stored under a key no request can read |
| Storage.LocalStorageProvider.UploadFile | src/storage/providers/local-storage.provider.ts:21-40 | an unsafe folder is refused, otherwise one file is written and the answer its key will give is stated |
| Storage.LocalStorageProvider.DeleteFile | src/storage/providers/local-storage.provider.ts:42-46 | idempotent: the key reads as missing afterwards and every other key reads as before |
| Storage.LocalStorageProvider.GetFile | src/storage/providers/local-storage.provider.ts:48-60 | malformed, missing or the stored bytes |
| Storage.S3StorageProvider.UploadFile | src/storage/providers/s3-storage.provider.ts:41-68 | an unsafe folder is refused before the bucket is touched, a failed call stores nothing |
| Storage.S3StorageProvider.DeleteFile | src/storage/providers/s3-storage.provider.ts:70-80 | a malformed key is refused before the bucket is touched, otherwise the key is gone |
| Storage.ProvidersAgree | src/storage/providers/s3-storage.provider.ts:116-129 | after the same uploads and deletions every key reads the same from both providers, except that `..` is malformed to one and missing to the other |
| Seeding.ChunkArray | prisma/seeders/seeder.utils.ts:27-33 | the loop yields the chunks |
| Seeding.ChunksConcat | prisma/seeders/seeder.utils.ts:23-26 | the chunks concatenate to the input |
| Seeding.ChunksAreFull | prisma/seeders/seeder.utils.ts:23-26 | chunk k is the slice from k times the size on, non-empty, and full unless it is the last |
| Seeding.Table.CreateMany | prisma/seeders/seeder.utils.ts:4-6 | rows in conflict with an earlier row are skipped and the count is the table's growth |
| Seeding.InsertKeepsUnique | prisma/seeders/seeder.utils.ts:80-80 | the table stays free of conflicts, every row of the input is in it or in conflict with a row that is, and nothing but rows of the input was added |
| Seeding.InsertInTwo | prisma/seeders/seeder.utils.ts:79-82 | inserting two batches one after the other equals inserting their concatenation |
| Seeding.SeedInChunks | prisma/seeders/seeder.utils.ts:71-85 | for every chunk size the table ends as after one bulk insert and the total returned is its growth |
| Durations.ParsersAgree | src/auth/auth.controller.ts:253-263 | on every string, cookie max-age = 1000 times the seconds form = stored expiry minus now, NaN included |
| Durations.WellFormedIsNumber | src/common/config/env.validation.ts:102-109 | a duration the environment schema accepts parses to its decimal value times its unit, never negative |
| Durations.PrintThenParse | src/auth/auth.module.ts:11-16 | printing a count and a unit and parsing the text gives back count times unit |
| Durations.UnitsInMs | src/auth/auth.controller.ts:253-263 | a count of seconds, minutes, hours or days parses to that many milliseconds |
| Durations.ParseIntSigned | src/auth/auth.service.ts:444-446 | a sign is read, then digits up to the first other character; a sign without digits is not a number |
| Durations.UnknownUnit | src/auth/auth.controller.ts:254-262 | an unknown unit counts as zero, and a count that is not a number stays one |

## Left out

- Cryptography and libraries: SHA-256 and bcrypt are ideal injective functions (bcrypt's 72-byte limit is not modelled); JWT signing and verification, access-token payloads, Passport and random generation are not modelled.
- HTTP: messages and status codes (an outcome names the branch instead, so branches that answer alike stay apart), response timing, cookies, headers, throttling, guards, filters, interceptors, logging and mail delivery.
- Columns `createdAt` and `updatedAt`, and gaps in autoincremented ids after refused inserts.
- Crashes and database errors other than unique-column violations, in particular between the two writes of a failed attempt; JavaScript number overflow and invalid dates for huge durations.
- Common.ToLower: covers the characters whose lower case is an ASCII letter, the Kelvin sign included, so key readability is exact; other characters outside ASCII keep their case.
- AuthServices.AuthService.GoogleLogin: lower-cases the profile email by `Common.ToLower`, so two spellings that differ in the case of a letter outside ASCII are distinct addresses here.
- Interleaving.Exec: a clock value is read in the same statement as the write that stores it or the check that uses it; the gap between computing an expiry and committing it is not modelled.
- Credentials.GuessRateBound: is about atomic requests; `Guessing.OverlappingGuessRate` is the bound for overlapping ones.
- Settings.UpdateCoherentExactlyWhen: is about one update as a single step; `Settings.FreshForGoodExactlyWhen` is the statement over schedules.
- NonInterference.NonInterference: excludes registration and Google login, which depend on unique columns across users, and assumes unused random values.
- Storage: directories are not files of the model, so deleting a key named `.` reports success and reading one reports a missing file where the file system reports an error; a relative storage root is taken as already joined to the working directory.
- Storage.S3StorageProvider.DeleteFile: the bucket's own errors are one failure flag; content type, length and unreadable payloads are not modelled.
- Seeding: table truncation and its allow-list, and the content of the seeders.
- Environment validation, health checks, start-up retries and Swagger, each settled by reading one branch.
