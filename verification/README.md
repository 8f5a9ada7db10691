# A verified model of the auth, storage and HTTP core

This project models the parts of the service whose correctness is not visible in any single
function, and proves what their comments and tests promise, for all inputs, all runs and all
interleavings.

| file | models |
|---|---|
| `Rotation.dfy` | the refresh-token tables, the SQL statements on them, and one `rotateRefresh` / `persistSession` with nothing running beside it |
| `RotationRuns.dfy` | what every serial history of logins and refreshes keeps |
| `Protocol.dfy` | the same two transactions broken into their statements and interleaved without restriction, with advisory locks, row locks, uncommitted inserts, failures at any point, commits whose acknowledgement is lost, and user status changes |
| `ProtocolInvariant.dfy`, `ProtocolHistory.dfy`, `ProtocolTheorems.dfy` | the inductive invariant, the truth of the recorded history, linearizability and the safety theorems it carries over |
| `ProtocolProgress.dfy`, `ProtocolSessions.dfy`, `ProtocolInstances.dfy` | deadlocks, termination, and who is served: exactly the good refreshes, and those always; concrete reachable states |
| `TokenStore.dfy` | `rotateRefresh` and `persistSession` in their own imperative form, proved equal to the serial operations |
| `Lockout.dfy`, `LockoutRuns.dfy` | the lockout columns, `RecordLoginFailure`, and every sequence of committed statements on them |
| `Login.dfy`, `LoginRuns.dfy` | `verifyCredentials` as a method, and any number of its two steps (look up, write) interleaved |
| `Text.dfy`, `Base64.dfy`, `Phc.dfy`, `Token.dfy`, `Uuid.dfy`, `CanonicalPayload.dfy` | the codecs |
| `Retry.dfy`, `Ingest.dfy`, `Middleware.dfy` | the reconnect loop, batch ingestion, the recover / access-log chain |

## How the world outside is modelled

- **Postgres READ COMMITTED.** Each statement sees the rows committed when it runs. `FOR UPDATE` and
  `UPDATE` wait for row locks and then re-read. Advisory locks and row locks are held to the end of
  the transaction, so who holds what follows from the statements a transaction has run.
  `now()` is the begin time of the transaction. Begin times are arbitrary: no theorem about
  rotation needs clocks to be ordered, and the application clock is a separate arbitrary input of
  each refresh.
- **The advisory key** is any function of the family; two families may collide on it.
- **Randomness, argon2, SHA-256, clocks, timers, the database call of the retry loop** are
  parameters. Of argon2 only the output length is assumed. That a login draws a family no row
  carries is an assumption (122 random bits, no unique index); equal selectors and equal access
  hashes are not assumed away: the unique indexes refuse the second insert, and the model's
  transaction then fails.
- **Failures.** Any transaction may fail before its commit, and any commit may take effect while its
  caller sees an error.
- Times are integers in microseconds, the resolution of `timestamptz`. A `char` stands for one byte.
- Theorems write the constants of the source out (30_000_000 for the 30 seconds of reuse leeway, 900_000_000
  for 15 minutes, 2_592_000_000_000 for 30 days, "active"), so that a wrong constant in the model cannot
  satisfy them.

## Main results

1. Every interleaving of refreshes and logins commits the same rows and returns the same outcomes as
   running the finished requests one at a time, under the app clock they judged by, the credentials
   they drew and the status they read; per advisory key the order is the lock-grant order
   (`Linearizable`). The unlocked pre-read contributes nothing but the family.
2. Revocation is final and total (`NoEscapeFromRevocation`); exactly the late replays revoke
   (`ReplaysRevoke`); an honest racer never revokes (`HonestRacerNeverRevokes`); tokens are conserved
   (`Conservation`). Exactly the good requests get a session (`SessionsExactly`); a good refresh is
   served however it is interleaved (`GoodRefreshGetsSession`, `MintedTokenIsServed`), and the newest
   token can always be rotated as long as no other open refresh holds a token of its family
   (`LatestTokenRotates`); a disabled user's refreshes stop, but for those already past their look at
   the status (`DisabledUserGetsNothing`). A chain outlives the lifetime of its login exactly when it
   is rotated later (`LifetimeSlides`).
3. Unless two open transactions drew equal random keys, no waiting chain is longer than one
   (`NoDeadlock`); which cycles there are in that case is an if-and-only-if (`DeadlockIsKeyWaits`),
   and one is reachable (`ReachableDeadlock`). Every schedule is finite with an explicit bound, and
   all open transactions can be run to their end with no failure but those of keys that clashed
   before (`EveryoneFinishes`).
4. The lockout counter loses nothing under any interleaving; failures are conserved
   (`FailureLedger`), from which the rate bound and the one-event-per-episode property follow. How long
   a lock stands is an if-and-only-if over runs (`LockStandsIff`).
5. The PHC parser accepts exactly one spelling of version and costs and inverts the printer on the
   whole accepted range; the v2 payload is injective and never a v1 payload; minted tokens split
   back and rotate.
6. The retry loop is one call when transient errors are harmless; ingestion is exactly-once over
   every interleaving; the access log tells the truth exactly when the handler starts with a final
   status.

## Where the code differs from its comments

The model follows the code. In each case the exact condition is proved.

- `internal/modules/auth/login.go:217-227` says every path that is not a server error does one
  UPDATE. The broken-hash path (lines 287-290) does none. `Login.Handler.VerifyCredentials` states
  the exact condition and `Login.BrokenHashSendsNothing` gives an instance.
- `internal/modules/auth/store.go:117-125` says the worst case of a racing success reset is a count
  of 1. A success whose look-up saw no lock in force also clears a lock placed since, under the
  service's own 5 failures and 15 minutes (`LoginRuns.StaleSuccessClearsLock`).
  `LoginRuns.LockStandsIff` says exactly in which runs a lock stands for its whole window.
- `internal/modules/auth/refresh.go:217-226` and `sql/auth.sql:132-141` promise that there is no
  deadlock. That is so for the advisory and row locks. The unique indexes are locks too: a rotation
  inserts its refresh row first, a login its access row, so two pairs of equal random draws can close
  a cycle, and such a state is reachable (`ProtocolInstances.ReachableDeadlock`).
  `ProtocolProgress.DeadlockIsKeyWaits` says exactly which cycles there are; without equal draws there
  is none (`ProtocolProgress.NoDeadlock`).
- `internal/modules/auth/login.go:49-54` calls the refresh lifetime the absolute ceiling of a rotation
  chain. It slides: each rotation grants the full 30 days again. A chain has a token good for longer
  than the lifetime granted at its login if and only if one of its rotations was judged later than the
  login (`ProtocolTheorems.LifetimeSlides`); `ProtocolInstances.ReachableOverlongChain` is a reachable
  case.
- `internal/http/middleware.go:41-47` reads as if the recorded status were the one the client sees.
  That holds exactly when the handler's first call is not an informational or invalid code
  (`Middleware.Serve`, `Middleware.EarlyHints`).
- base64 decoding is not the inverse of encoding: `Base64.EncodeDecodeIff` says for which strings it
  is, `Base64.ThreeSpellings` shows three texts of one byte. So a PHC string is canonical in its
  version and costs only, which is what `Phc.AcceptedIff` states.

## Model

| member | source | states |
|---|---|---|
| ProtocolTheorems.Linearizable | internal/modules/auth/refresh.go:176-369 | in every reachable interleaving the committed tables and all returned outcomes are those of the finished requests run one at a time, each transaction once and under its own request, and under the app clock, the drawn credentials and the committed user status of its own statements in any run that leads there; per advisory key in lock-grant order |
| ProtocolTheorems.NoEscapeFromRevocation | internal/modules/auth/refresh.go:28-35 | a revoked family is revoked as a whole; afterwards, in-flight transactions included, it gains no row, its rows do not change and none of its tokens yields a session |
| ProtocolTheorems.ReplaysRevoke | internal/modules/auth/refresh.go:265-296 | a finished refresh revoked iff it had the right verifier, met an unrevoked family, and began more than 30 seconds after its token's consumer began; expiry and app clock play no part; all rows and no access token are hit |
| ProtocolSessions.SessionsExactly | internal/modules/auth/refresh.go:244-369 | which finished refreshes got a session (iff), a status never looked at counting as active; and that the session is the token owner's, with fresh credentials and the access expiry in milliseconds |
| ProtocolSessions.LoginsExactly | internal/modules/auth/login.go:340-386 | a finished login answered with a session of its own user, its drawn credentials and the access expiry in milliseconds iff nothing went wrong, and with a server error otherwise |
| ProtocolHistory.StatusIsTrue | internal/modules/auth/refresh.go:307-319 | the status entered for a refresh that got a session, or was refused for its status, is the owner's committed status in the state in which that transaction ran its look-up |
| ProtocolHistory.InputsAreTrue | internal/modules/auth/refresh.go:257-338 | the app clock of a session, and of a refusal of a good token, is the one that transaction judged by; the credentials of a session are the ones it drew |
| ProtocolSessions.GoodRefreshGetsSession | internal/modules/auth/refresh.go:244-369 | in any interleaving, a finished refresh with the right verifier, unrevoked family and unconsumed token, of an owner active throughout, judged before the expiry and meeting no error, got its owner's session, and its token is the newest |
| ProtocolSessions.LatestTokenRotates | internal/modules/auth/refresh.go:321-369 | from any reachable state in which no open refresh holds a token of the family, whatever else is open, a request for the newest token of an unrevoked, unexpired family of an active user runs to its end beside all others and gets a session |
| ProtocolSessions.DisabledUserGetsNothing | internal/modules/auth/refresh.go:307-319 | while a user stays non-active, only refreshes already past the status gate when it was disabled still issue a session |
| ProtocolTheorems.HonestRacerNeverRevokes | internal/modules/auth/refresh.go:58-82 | a refresh of a consumed token begun at most 30 s after its consumer began never revokes, whatever it waits for and whatever the app clock says |
| ProtocolTheorems.Conservation | internal/modules/auth/refresh.go:14-17 | every reachable state: one unused row per family, rows = 1 + rotations, equally many refresh and access rows per user, no token rotated twice |
| ProtocolTheorems.LifetimeSlides | internal/modules/auth/login.go:49-54 | in every reachable state a chain has a token good beyond the lifetime granted at its login iff one of its rotations was judged later than the login |
| RotationRuns.CeilingBrokenIff | internal/modules/auth/refresh.go:337-346 | the same over every serial history |
| RotationRuns.RowMade | internal/modules/auth/refresh.go:337-346 | every refresh row was made by one login or rotation of its family and is good for the full lifetime from that one's clock |
| ProtocolInstances.ReachableOverlongChain | internal/modules/auth/login.go:49-54 | a reachable state with a chain that outlives its login's lifetime |
| ProtocolInvariant.StepKeeps | internal/modules/auth/refresh.go:162-175 | every statement of every transaction keeps the invariant: what each transaction read under its locks is still true, keys are exclusive, uncommitted inserts do not collide, the tables are the serial ones |
| ProtocolInvariant.ReachableInv | internal/modules/auth/refresh.go:162-175 | the invariant holds in every reachable state |
| ProtocolInvariant.StepShape | internal/modules/auth/refresh.go:185-198 | a transaction's step either moves it on with nothing committed, or ends it, once, under its own request |
| ProtocolProgress.HolderNeverWaits | internal/modules/auth/refresh.go:217-226 | whoever holds an advisory key waits for no advisory or row lock, whichever families hash to it |
| ProtocolProgress.TheWorldIsFree | internal/modules/auth/refresh.go:185-198 | requests, failures, status changes, app clocks and draws are possible at any time; nothing is assumed of them |
| ProtocolProgress.AnyCommitMayBeLost | internal/modules/auth/refresh.go:291-293 | any commit may take effect while its caller sees an error |
| ProtocolProgress.LocksAreTaken | sql/auth.sql:120-141 | a lock is taken by the statement that asks for it, and only when nobody else has it |
| ProtocolProgress.LocksAreKept | sql/auth.sql:132-141 | it is kept until the transaction ends |
| ProtocolProgress.LocksAreExclusive | sql/auth.sql:120-141 | in every reachable state no two transactions hold the same advisory key or the same row |
| ProtocolProgress.WritesAreLocked | internal/modules/auth/refresh.go:230-242 | a committed row is only ever changed by the transaction that holds it |
| ProtocolProgress.NoDeadlock | sql/auth.sql:132-141 | with advisory, row and unique-index waits as edges, the wait-for graph of a reachable state has no walk of two edges, hence no cycle, as long as no two open transactions drew an equal key |
| ProtocolProgress.DeadlockIsKeyWaits | internal/modules/auth/refresh.go:340-356 | a closed sequence of transactions of a reachable state is a cycle of the wait-for graph iff rotations and logins alternate in it, each half way through its inserts and waiting for the key the next one inserted |
| ProtocolInstances.ReachableDeadlock | internal/modules/auth/store.go:159-166 | a reachable state in which a rotation and a login that drew the same credentials wait for each other |
| ProtocolProgress.Progress | internal/modules/auth/refresh.go:217-226 | an unfinished transaction, or the holder whose lock it waits for, can run its next statement; it has to fail only if the key it is about to insert is taken |
| ProtocolProgress.EveryScheduleIsFinite | internal/modules/auth/refresh.go:217-296 | n open transactions run at most 10 n (rows + n + 1) statements under any scheduler |
| ProtocolProgress.EveryoneFinishes | internal/modules/auth/refresh.go:217-296 | from every reachable state all transactions can finish, double replays included; the only ones that fail had already drawn a key equal to a committed one or to another open draw |
| RotationRuns.HistorySound | internal/modules/auth/refresh.go:28-35 | in every serial history families are uniformly revoked, have exactly one unused row, and access and refresh rows balance per user |
| RotationRuns.RevokedIsFinal | sql/auth.sql:149-154 | after a revoke the family's rows never change or grow and its tokens give no session |
| RotationRuns.RowsAreRotationsPlusOne | internal/modules/auth/refresh.go:321-360 | rows of a family = 1 + committed rotations |
| RotationRuns.UsedAtIsTheConsumer | sql/auth.sql:143-147 | used_at is the begin time of the one transaction that rotated the row, and null when there is none |
| RotationRuns.RotatedOnce | internal/modules/auth/refresh.go:270-284 | no two positions of a history rotate the same token |
| RotationRuns.RevokesExactlyReplays | internal/modules/auth/refresh.go:257-305 | iff-condition for a serial refresh to revoke, with the 30 seconds written out, and its effect |
| RotationRuns.RefreshAnswers | internal/modules/auth/refresh.go:162-175 | which serial refreshes answer with a session, with a server error and with the credential refusal; the tables change only by a rotation or a revocation |
| RotationRuns.RotatesExactly | internal/modules/auth/refresh.go:244-360 | iff-condition for a serial refresh to rotate, and for it to answer with a session |
| RotationRuns.RotationEffect | internal/modules/auth/refresh.go:321-360 | the whole change a rotation makes: used_at of one row, one new chained row with a full new lifetime, one access row of the same user |
| RotationRuns.LoginEffect | internal/modules/auth/login.go:358-377 | the whole change a login makes, on any tables and at any app clock: one refresh row of 30 days and one access row of 15 minutes of the user, under the drawn family and keys |
| RotationRuns.LoginAnswers | internal/modules/auth/login.go:340-386 | when a login commits (iff), and what it answers |
| RotationRuns.TipRotates | internal/modules/auth/refresh.go:321-369 | the newest token of an unrevoked, unexpired chain of an active user rotates, and the new row is the newest |
| TokenStore.Store.RotateRefresh | internal/modules/auth/refresh.go:176-369 | the imperative call is exactly the serial operation with the fault it suffered; a session is the token owner's, active and with its expiry; a token used at most 30 seconds before changes nothing, a later replay revokes the family; a server error changes nothing unless the commit was durable |
| TokenStore.Store.RotateInTx | internal/modules/auth/refresh.go:209-369 | steps (1)-(9) on the open transaction, same statement |
| TokenStore.Store.PersistSession | internal/modules/auth/store.go:143-167 | both rows, written out, or neither; the session answered is the user's, exactly when both keys were free; equal to the serial login write |
| TokenStore.Store.Commit | internal/modules/auth/refresh.go:357-360 | the commit installs the transaction's rows when it succeeds, or when it fails durably, and otherwise nothing |
| RotationRuns.RevokeEffect | sql/auth.sql:149-154 | the whole change a revocation makes: every row of the family, none revoked before, gets the begin time as revoked_at and keeps all else; no other row and no access token changes |
| TokenStore.Store.InsertRefreshToken | db/migrations/00002_auth.sql:48-49 | fails exactly on a taken selector, then changing nothing |
| TokenStore.Store.InsertAccessToken | db/migrations/00002_auth.sql:64-65 | fails exactly on a taken hash, then changing nothing |
| Lockout.UserRow.RecordLoginFailure | sql/auth.sql:81-108 | the three cases of one failure: a lock in force changes nothing, an expired one restarts at 1, else one more, locking at the threshold; and just_locked by iff |
| LockoutRuns.ResetForgets | sql/auth.sql:26-35 | after a reset the row goes on as that of a new account, whatever came before |
| LockoutRuns.LockEnds | sql/auth.sql:69-75 | after any history, a failure at or after locked_until is the first of a new count and leaves the account open unless one failure locks; one before changes nothing; event by iff |
| LockoutRuns.OpenCounts | sql/auth.sql:69-79 | after any history, a failure on an open account is one more and locks, with an event, exactly when it is the N-th |
| LockoutRuns.CounterInvariant | sql/auth.sql:69-75 | null lock: 0 <= count < N; lock: count = N; and the count is the counted failures since the last reset or expired-lock restart |
| LockoutRuns.EpisodeIsQuiet | sql/auth.sql:93-101 | from a lock to a reset or to a failure at or after locked_until, both columns are constant and no event is logged |
| LockoutRuns.OneEventPerEpisode | sql/auth.sql:77-79 | between two account_locked events lies a reset or a failure at or after locked_until, and N counted failures |
| LockoutRuns.FailureLedger | sql/auth.sql:87-108 | for every stretch: credit before + counted failures = N times locks + credit after + what resets discarded |
| LockoutRuns.LockNeedsFailures | sql/auth.sql:88-100 | with no restart in between, a lock comes with exactly the missing failures |
| LockoutRuns.LocksAreSpaced | internal/modules/auth/lockout.go:32-34 | without resets and with now() non-decreasing, locks are at least a window apart |
| LockoutRuns.FailureRateBound | internal/modules/auth/lockout.go:29-44 | in a span T at most T/W + 1 locks and N (T/W + 2) - 1 failures that change the count |
| Login.MustBuildDummyHash | internal/modules/auth/dummy.go:28-40 | the dummy hash parses for every password and salt drawn |
| Login.Handler.constructor | internal/modules/auth/dummy.go:26 | after start-up a dummy verification always finds a hash that parses |
| Login.Handler.Verify | internal/modules/auth/password.go:114-138 | one argon2 exactly when the stored hash decodes, an error exactly otherwise, and true exactly when argon2 of the presented password with the stored salt and costs is the stored key |
| Login.Handler.DummyVerify | internal/modules/auth/dummy.go:42-49 | exactly one argon2 |
| Login.Handler.VerifyCredentials | internal/modules/auth/login.go:237-338 | one argon2 on every path past the look-up; one UPDATE iff the hash is not broken; success iff the right password of an active user whose lock is absent or has run out, and the write succeeds; the row after each path, with 5 failures and 15 minutes written out; event by iff |
| Login.BrokenIsUnparseable | internal/modules/auth/login.go:281-290 | the login verifies by Verify, and the broken-hash path is exactly the unparseable stored hash, whatever the password |
| Login.BrokenHashSendsNothing | internal/modules/auth/login.go:287-290 | a concrete stored hash on which no UPDATE is sent |
| LoginRuns.EveryInterleaving | internal/modules/auth/login.go:273-337 | any interleaving of look-ups, writes and unlocks keeps the counter invariant, and the events are the lock transitions of the history |
| LoginRuns.GateHolds | internal/modules/auth/login.go:259-279 | a login that saw a lock in force only touches the row, whenever in any run its write comes and whatever has become of the account |
| LoginRuns.RightPasswordClears | internal/modules/auth/login.go:331-337 | a login that saw no lock or an expired one, of an active user with the right password, clears the row whenever in any run its write comes |
| LoginRuns.WrongPasswordCounts | internal/modules/auth/login.go:308-329 | with a wrong password it counts against the row as it is by then, in the three cases, with its event |
| LoginRuns.DisabledOnlyTouches | internal/modules/auth/login.go:292-306 | a disabled user's attempt neither counts nor locks nor clears, whatever the password, in any run |
| LoginRuns.LockStandsIff | internal/modules/auth/store.go:113-132 | from any state with a lock, in any run before its end and without an unlock: both columns and the event count are constant in all states iff no write is the reset of a login already open then, that saw no lock in force and had the right password of an active user |
| LoginRuns.StaleSuccessClearsLock | internal/modules/auth/store.go:117-125 | a run under the 5-failure, 15-minute policy in which a success clears a lock that has its window to go |
| Phc.AcceptedIff | internal/modules/auth/password.go:185-252 | decodeHash accepts exactly the canonical version and cost segments in range around non-empty base64 texts, and returns those values |
| Phc.ErrorKinds | internal/modules/auth/password.go:93-99 | which of the three errors a rejected string gets, by iff |
| Phc.RoundTrip | internal/modules/auth/password.go:160-252 | decoding a rendered hash returns costs, salt and key in range, and rejects otherwise |
| Phc.ReencodeStable | internal/modules/auth/password.go:185-252 | re-encoding what any accepted string decoded to decodes to the same |
| Phc.VerifyCompares | internal/modules/auth/password.go:123-138 | for every stored string: an error if it does not parse, else whether argon2 of the presented password with the stored salt and costs is the stored key |
| Phc.VerifyHash | internal/modules/auth/password.go:101-138 | Verify against a fresh hash accepts exactly what argon2 at 2 iterations, 19456 KiB, one lane and 32 bytes does not tell from the password, and the password itself |
| Phc.HashText | internal/modules/auth/password.go:173-182 | the text of a fresh hash, written out but for the two base64 parts |
| Phc.RehashIff | internal/modules/auth/password.go:140-158 | needs rehash iff it does not parse or some knob is below current |
| Phc.ScanPrintedParams | internal/modules/auth/password.go:217-227 | scanning the printed cost segment returns its three numbers |
| Phc.DecodeAssembled | internal/modules/auth/password.go:191-252 | six good segments decode as their numbers and base64 texts do |
| Base64.DecodeEncode | internal/modules/auth/password.go:89-91 | decode inverts encode on all bytes, in both alphabets, and the text stays in its alphabet |
| Base64.Alphabets | internal/modules/auth/password.go:89-91 | the two alphabets by ASCII code |
| Base64.SameNumber | internal/modules/auth/password.go:89-91 | three bytes and their four sextets are the same 24-bit number |
| Base64.EncodeGroups | internal/modules/auth/password.go:89-91 | four symbols for every three bytes, two or three for what is left over |
| Base64.EncodeDecodeIff | internal/modules/auth/password.go:240-247 | encode inverts decode exactly on texts without CR or LF whose unused last bits are zero |
| Base64.ThreeSpellings | internal/modules/auth/password.go:240-247 | three texts that decode to one byte |
| Token.MintedTokenSplits | internal/modules/auth/token.go:92-109 | a minted token is its selector, a dot and its verifier in base64url, splits into exactly these, and the verifier hashes to the stored hash of the drawn bytes |
| Token.SplitsIff | internal/modules/auth/refresh.go:104-112 | which strings split, and into what: a non-empty part without a dot, a dot, a non-empty rest |
| Token.PresentedHash | internal/modules/auth/refresh.go:244-255 | a presented verifier is compared by the hash of the bytes it decodes to, and never matches if it does not decode |
| Token.SelectorsDistinct | internal/modules/auth/token.go:93-101 | equal selectors of minted tokens only from equal drawn bytes |
| Token.MintedTokenIsServed | internal/modules/auth/refresh.go:104-118 | from the string the client holds to the session, in any interleaving: the request for a good minted token that finishes without error ended in a session of the owner |
| Token.MintedTokenCanRotate | internal/modules/auth/refresh.go:104-118 | and as long as no open refresh holds a token of the family, it can run to its end and be served, beside whatever else is open |
| Uuid.UuidToString | internal/modules/auth/login.go:397-417 | the buffer loop writes exactly the 8-4-4-4-12 form |
| Uuid.CanonicalReadsBack | internal/modules/auth/login.go:397-417 | the printed form determines the sixteen bytes |
| Uuid.CanonicalShape | internal/modules/auth/login.go:397-417 | 36 characters, dashes at 8, 13, 18 and 23, the bytes in order between them |
| Uuid.HexByteIs | internal/modules/auth/login.go:403-413 | a byte is printed as its high and its low half, in lower case |
| Uuid.NewTokenFamily | internal/modules/auth/token.go:122-139 | version and variant bits are set, every other drawn bit is kept |
| Uuid.FamilyCollision | internal/modules/auth/token.go:122-139 | two draws give one family only if they agree on all 122 kept bits |
| CanonicalPayload.CheckFieldHygiene | internal/platform/offlinesig/payload.go:152-167 | nil iff printable ASCII, else the first offending byte |
| CanonicalPayload.NormalizeDigest | internal/platform/offlinesig/payload.go:119-146 | accepts exactly legal digests, lower-cases them, and which error otherwise |
| CanonicalPayload.BuildCanonicalPayload | internal/platform/offlinesig/payload.go:78-117 | bytes iff all fields are legal, and then the tag, version, lower-case digest, minimal app version, file manifest hash and rollback floor, each after one LF; otherwise the first bad field is named |
| CanonicalPayload.PayloadParses | internal/platform/offlinesig/payload.go:106-116 | splitting at LF recovers the six lines, each field in its place and the digest in lower case; exactly five LF |
| CanonicalPayload.PayloadInjective | internal/platform/offlinesig/payload.go:83-117 | equal bytes iff equal tuples after digest lower-casing |
| CanonicalPayload.NeverV1 | internal/platform/offlinesig/payload.go:51-54 | no accepted payload is a version LF digest payload |
| CanonicalPayload.NormalSamePayload | internal/platform/offlinesig/payload.go:119-123 | normalizing is idempotent and changes neither acceptance nor bytes |
| Retry.Run | internal/platform/db/retry.go:231-311 | 1 to 3 calls, a further one only after a transient error, no sooner than 100 then 200 ms later and before ten seconds and the caller's deadline are up; last call's result; why it stopped; at most 300 ms asleep; one call's effect if transient errors are harmless |
| Retry.TransientIff | internal/platform/db/retry.go:336-398 | which errors are transient: nine server codes, and without a server error never a deadline or a cancellation |
| Retry.RunUntil | internal/platform/db/retry.go:256-299 | the loop under a fixed deadline: the attempts made, their pacing, and why it ended |
| Retry.SleepWithBudget | internal/platform/db/retry.go:313-334 | sleeps the smaller of the backoff and the time left; true iff the timer fired before the deadline |
| Retry.RetryIsOneCall | internal/platform/db/retry.go:336-355 | if transient errors left the database alone, the loop's result is that of one call on the original database |
| Ingest.Store.InsertEvent | sql/events.sql:12-17 | the row lands unless its key is taken; the count is the table's growth |
| Ingest.Store.InsertBatch | internal/modules/observability/store.go:48-78 | accepted is the table's growth; an error leaves the table alone unless the commit was durable |
| Ingest.LandIsUnion | sql/events.sql:12-17 | a batch adds exactly its new keys with its first row for each and keeps every old row |
| Ingest.ResendAcceptsNothing | internal/modules/observability/store.go:27-32 | landing keys already present changes nothing |
| Ingest.Growth | internal/modules/observability/events.go:209-214 | a batch grows the table by at most its size and never shrinks it |
| Ingest.ExactlyOnce | internal/modules/observability/store.go:48-78 | over every interleaving of sends, resends, aborts and unacknowledged commits the table is the serial union, each accepted count is that commit's growth, and the counts sum to the table |
| Ingest.FirstWriterKept | sql/events.sql:12-17 | the row under a key is the first one in the first committed batch that has it |
| Ingest.ResendCountsZero | internal/modules/observability/events.go:200-214 | a later commit of a batch that committed before counts 0 |
| Middleware.StatusRecorder.WriteHeader | internal/http/middleware.go:54-61 | only the first call is recorded and forwarded |
| Middleware.StatusRecorder.Write | internal/http/middleware.go:63-69 | a first write records 200 |
| Middleware.RunHandler | internal/http/middleware.go:41-69 | for every handler trace: recorded status, wire status, at most one forwarded WriteHeader |
| Middleware.Serve | internal/http/middleware.go:79-157 | one access line, always a committed response, logged status = wire status iff the first call is final, 500 envelope iff panic before any call |
| Middleware.EarlyHints | internal/http/middleware.go:54-61 | an instance where the logged status is not the client's |

## Left out

- ProtocolProgress.EveryoneFinishes: the database's choice of a deadlock victim is not modelled; a transaction whose drawn key clashes may fail at its insert.
- ProtocolProgress.EveryScheduleIsFinite: bounds the statements run; that a scheduler does run some enabled statement is an assumption.
- ProtocolTheorems.Linearizable: a refresh that ends early enters the history with placeholders for inputs it never reached: status active, no drawn credentials, application clock 0; `ProtocolSessions.GoodRefreshGetsSession` states the outcome without them.
- RotationRuns.HistorySound: assumes that a login draws a token family no row carries, which no index enforces.
- Login.Handler.VerifyCredentials: the password is verified in the same call as the write; the interleaving of look-up and write is in `LoginRuns`, without failing writes.
- Retry.Run: the clock does not move between two adjacent reads of it nor run backwards during a call or a fired timer; what the derived context does to a call is up to the parameter `fn`.
- Middleware.Serve: a panic in `newRequestID` happens outside the access log, which then writes no line; the chain here starts with the request id already present.
- Phc.AcceptedIff: leading blanks that `Sscanf` skips before a number are not modelled; the re-print comparison rejects them with the same error.
- Deleting users (with its cascade to tokens), logout, `RevokeAccessToken` and any writer of the token tables other than login and refresh.
- Foreign-key share locks on the users row: a token insert may wait for a single-statement lockout update, which itself waits for no token row.
- Nanoseconds of the application clock below the microsecond that `timestamptz` keeps.
- JSON decoding, body caps, routing, error-envelope rendering, log output other than the number of lines and their status.
- The internals of argon2, SHA-256, Ed25519 and the random source, and the time any of them takes: work is counted, not timed.
- pgx pool, connections, rows and `retryRow`; `NewPool`; shutdown.
- Deadlocks between event batches that share keys in different orders: the database aborts one, which is an abort like any other here.
- `SignActive` and `activeStatusFor`, which sign a payload only for an allow-listed key that the configuration lists as active and whose private half matches.
- `IngestVerifier` and the parsing of its configured hashes, which let an events request through when the hash of its token header is a configured one.
- `BearerMiddleware`, which lets a request through when its access token's row is unrevoked and unexpired and its owner active; the rows it reads are those of this model.
- JSON Schema validation of events and the conversion of an envelope to a row.
