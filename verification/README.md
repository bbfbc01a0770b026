# Quicker Portal backend: verified model

A Dafny model of the stateful protocols of the Quicker Portal backend, with proofs
about whole runs. `dafny verify dfyconfig.toml` checks everything.

Code that edits objects or documents in place is a class whose methods are proved
equal to specification functions; the theorems are about those functions, over every
run or every interleaving. Code with `await`s or database calls is a state machine
with one step per call. Digests are modelled by the data they cover (equal digests
mean equal data), random ids and tokens as fresh, sealing as invertible.

What an operation answers and stores is stated by history: the `…Stories` and
`…Chains` modules keep, beside the state, only what callers asked for and were told,
and prove that the state, and every later answer, is what that history says.

| modules | part of the system |
|---|---|
| `Broker`, `BrokerRuns`, `BrokerStories`, `BrokerMongo` | desktop job broker, file store and database |
| `RevisionLoop`, `SignupCodes` | the `_rev` compare-and-swap loop; signup codes run through it |
| `RefreshReplay`, `OAuthGrants`, `OAuthGrantRuns`, `OAuthGrantSafety`, `OAuthBulkRevocation` | refresh-token rotation and revocation of OAuth grants (section 6 of RFC 6749) |
| `OAuthCodes`, `OAuthCodeStories` | authorization requests, codes and grants (section 4.1.2 of RFC 6749, section 4.6 of RFC 7636) |
| `Sessions`, `SessionRuns`, `SessionChains`, `SessionsMongo`, `SessionsMongoChains` | product sessions, file store and database |
| `JsonStores` | the JSON document store |
| `Signals`, `SignalStories`, `WakeUps` | versioned wake-up signals; waiting for a job of the broker with them |
| `Paths`, `Globs`, `GlobSets`, `GlobMeaning`, `GlobCompiler` | path normaliser; glob compiler |
| `WorkspaceIndex`, `Hub`, `HubRuns`, `HubStories` | file index and change log; the bridge to the desktop apps |
| `WriteGuards`, `WriteRefusals`, `SessionLedgers`, `Verification`, `VerificationStories` | read ledger and write checks; shared ledgers; the finish gate |
| `SmtpReplies`, `DotStuffing`, `RateLimits` | SMTP reply reader and body encoding (sections 4.2.1 and 4.5.2 of RFC 5321); rate limiter |
| `Base` | options and small helpers |

Where the code does not have an expected property, the code is kept, the failure has a
lemma with a concrete run or input, and the exact condition is proved:

- A poll reads an expired lease as `expired_unreconciled` at once; the sweep first
  grants it the reconciliation window. They agree on exactly the jobs whose lease is
  not over (`PollAgreesWithSweep`; `StaleLeaseReadsUnreconciled` reaches one).
- With the database, a retried claim is handed a job before its lease hash is stored.
  If the first claim stops there, the retry holds a job it can never report; a
  delivered token can report exactly when the lease was secured (`DeliveredCanReport`,
  `UnsecuredDelivery`).
- The revocation of all grants of a client does not bump `_rev`. It is lost exactly
  when a caller that had read the grant before writes it back live: any touch of
  `lastUsedAt`, a revocation with a token the grant does not hold, or a refresh whose
  guards let it through (`UnbumpedWritesAreLost`, `BulkRevocationIsLost`; runs in
  `TouchUndoesRevocation` and `RefreshUndoesRevocation`).
- In the file store an approval can store its code and fail to mark its request used;
  the request can then be approved again. An approval makes the request's first code
  exactly when none of that request failed half-way before (`SecondCodeExactly`,
  `HalfWrittenApproval`).
- `normalizeRelPath` is not idempotent: `./ a`, `./~x` and `./C:/x` normalise to texts
  that normalise differently or not at all (`NormalizingTwice`, `NormalizingTwiceCanFail`).
- The read ledger normalises paths a second time, so a read of a file licenses the
  update of exactly the files that share its ledger key (`LicensedExactly`,
  `ReadLicensesExactly`): a read of `a` that of ` a`, and a read of ` a` that of `a`
  (`OtherFileLicenses`, `OtherFileLicensesCanonical`). A set of files is safe from this,
  over all histories of them, exactly when no two share a key (`NeverBlindExactly`);
  files with canonical paths never do (`AcceptedUpdateWasSeen`).
- A `**` compiles to `.*`, which stops at a line terminator. On every path a pattern
  means its glob with each `**` held to one line (`CompiledGlobMeansGlob`), which only
  loses paths (`GlobInLine`); so the two disagree exactly where the glob matches only by
  a `**` that spans a terminator (`DeepStarStopsAtNewline`).
- A move onto an indexed path leaves the overwritten size in `indexedBytes`; the total
  is off by exactly those sizes since the last reset (`IndexedBytesExactly`,
  `MoveOntoIndexedDrifts`).
- The rate limiter's header says sliding window; the code is a fixed window. 2·max per
  window length is the exact bound, reached around a window's end (`AtMostTwiceTheLimit`,
  `BurstAcrossTheBoundary`). A window length stays within max exactly when no earlier
  window of the key is still open with room at its start (`AtMostTheLimitExactly`).
- A sleeper misses a completion only by a stale version, which looks current exactly
  when it was the initial one and 10000 other keys were notified since (`NoLostWakeup`,
  `StaleVersion`; a run in `EvictionLosesWakeups`).
- A period after a bare CR, U+2028 or U+2029 is stuffed although the receiver sees no
  line start there; un-stuffing is exact for all other texts (`UnstuffingUndoesExactly`,
  `BareDotIsDoubled`).
- A required command announced after the others passed is not asked for until the next
  write: the open gate is proof for what is announced later, in every run, exactly if
  it requires no more than was required when the write was settled
  (`GateProvesExactly`, `LateCommandIsNotAsked`).
- A tool call counted after its session lookup can outlive the session's ledger. Two
  live sessions of one client hold different ledgers exactly when a sweep dropped the
  client's ledger between the calls that made them (`DifferentLedgersExactly`,
  `SweepSharesExactly`, `LateCallSplits`).
- Expiry never exceeds the absolute end only if the refresh lifetime is not the longer
  one; otherwise creation alone breaks it (`CapNeedsOrderedLifetimes`).

Limits that the code sets itself are stated exactly too: an unrevoked access token
outlives 16 later rotations and no more, and the last 10 retired refresh tokens are
recognised (`AccessLifetime`, `RememberedRefresh`).

## Model

| member | source | states |
|---|---|---|
| Broker.JobStore.Enqueue | src/modules/mcp/broker.js:95-104 | prune, refuse at 50 unfinished jobs of the user, else append: the whole new job list |
| Broker.JobStore.SweepStale | src/modules/mcp/broker.js:215-238 | the loop sweeps every job: leased past its lease, uncertain past its window, queued past its deadline |
| Broker.JobStore.Claim | src/modules/mcp/broker.js:209-270 | prune, replay a claim already holding a job, sweep, lease the first claimable job; the new list and the envelope |
| Broker.JobStore.Complete | src/modules/mcp/broker.js:307-324 | every error case, the acknowledgement of a repeat, and the stored outcome |
| Broker.JobStore.GiveUp | src/modules/mcp/broker.js:445-463 | a timed-out wait makes an accepted job uncertain, a queued one expired, others stay |
| Broker.JobStore.Consume | src/modules/mcp/broker.js:418-439 | handing over a terminal job purges its payload and nothing else |
| BrokerRuns.OneTokenPerJob | src/modules/mcp/broker.js:209-270 | over every run all envelopes issued for one job carry one lease token |
| BrokerRuns.OnlyTheHolderCompletes | src/modules/mcp/broker.js:307-322 | a completion is accepted only with the issued token, and only from leased or outcome_unknown, once |
| BrokerRuns.RepeatedReport | src/modules/mcp/broker.js:311 | repeating a completion with its token returns the same status and changes nothing |
| BrokerRuns.JobsMoveForward | src/modules/mcp/broker.js:209-328 | over every run no job returns to queued and terminal statuses are absorbing |
| BrokerRuns.StepEvolves | src/modules/mcp/broker.js:27-33 | every call moves jobs forward, and only terminal jobs disappear |
| BrokerRuns.AtMostFiftyActive | src/modules/mcp/broker.js:96-104 | over every run no user has more than 50 unfinished jobs |
| BrokerRuns.OneHolderAlways | src/modules/mcp/broker.js:211-214 | over every run at most one job of a user holds a given claim |
| BrokerRuns.RepeatedClaim | src/modules/mcp/broker.js:211-214 | a claim repeated while its job is leased gets that job and token again and leases nothing |
| BrokerRuns.ClaimTakesOldest | src/modules/mcp/broker.js:239-244 | a claim leases the oldest job it could lease |
| BrokerRuns.KeptExactly | src/modules/mcp/broker.js:27-33 | pruning keeps every unfinished job, and a terminal one iff it is younger than a day and fewer than 2000 such are stored after it |
| BrokerRuns.PollAgreesWithSweep | src/modules/mcp/broker.js:613-617 | the status read by a poll is the swept status exactly for jobs whose lease is not over |
| BrokerRuns.StaleLeaseReadsUnreconciled | src/modules/mcp/broker.js:613-617 | a run to a leased job past its lease, which a poll and the sweep read differently |
| BrokerStories.JobTellsItsStory | src/modules/mcp/broker.js:209-463 | over every run each stored job is as ordered, delivered, reported and consumed: identity, deadline, payload, status, outcome, claim and lease times |
| BrokerStories.AcceptedOutcomeStays | src/modules/mcp/broker.js:317-322 | from the acceptance of a report on, whatever is called, its job carries exactly its status, result and error until the result is handed over |
| BrokerStories.HandedOverAsReported | src/modules/mcp/broker.js:418-439 | what the first wait hands over of a reported job is that report’s result and error |
| BrokerStories.ClaimServesTheOldest | src/modules/mcp/broker.js:209-244 | over every run a claim that is no repeat is handed the job ordered first of those still waiting, in time, for its user, tenant and environment, and nothing iff none does |
| BrokerStories.EnvelopeAsOrdered | src/modules/mcp/broker.js:239-270 | every envelope carries the arguments of the order and goes to its user, at first to its tenant and environment and before its deadline |
| BrokerStories.StoppedWaiting | src/modules/mcp/broker.js:445-463 | a wait that runs out leaves a delivered, unreported job open until thirty minutes after it first became uncertain, withdraws an untaken one and changes no other |
| BrokerStories.StaleLeaseIsUncertain | src/modules/mcp/broker.js:215-229 | a lease lasts as long as was asked for; then its job is open for thirty minutes more and no longer |
| BrokerMongo.LeasedSecuredRecordedOnce | src/modules/mcp/broker.js:154-187 | in every interleaving a job is leased, secured and completed at most once each |
| BrokerMongo.OneJobPerClaim | src/lib/mongo.js:115 | at any instant at most one job of a user, finished or not, holds a given claim key; two accepted ones never share a derived token |
| BrokerMongo.DeliveredTokensAgree | src/modules/mcp/broker.js:123-204 | all envelopes of a job carry one token, and only that token ever records an outcome |
| BrokerMongo.JobsMoveForward | src/modules/mcp/broker.js:123-305 | no interleaving requeues a job, revives a terminal one or brings back a removed one |
| BrokerMongo.DeliveredCanReport | src/modules/mcp/broker.js:280-301 | the holder of a delivered token of an accepted job can report iff the lease hash was stored |
| BrokerMongo.RowsAsInTheFileStore | src/modules/mcp/broker.js:127-178 | over every trace the sweeps, the two writes of a lease and those of a wait do to a row what the file store’s calls do |
| BrokerMongo.SecuredAsLease | src/modules/mcp/broker.js:172-187 | a claim whose job is still leased and unsecured makes the lease of the file store and is handed the job |
| BrokerMongo.ReportAnswered | src/modules/mcp/broker.js:276-284 | in every interleaving a report is answered by the history: the one recorded report again, a chance to record for the holder of a secured lease, or a refusal |
| BrokerMongo.ReportRecorded | src/modules/mcp/broker.js:285-301 | it is recorded iff the job is then still there, open, and its own |
| BrokerMongo.CallersEnd | src/modules/mcp/broker.js:123-301 | every database call of a claim or report brings it nearer to its end |
| BrokerMongo.RecordedOutcomeStays | src/modules/mcp/broker.js:285-301 | in every interleaving a job is finished iff one report was recorded, and carries what that one said until its payload is dropped |
| BrokerMongo.UnsecuredDelivery | src/modules/mcp/broker.js:123-187 | a reachable state delivers a job whose lease was never secured |
| RevisionLoop.EveryTraceIsLinearizable | src/modules/mcp/oauth-store.js:138-158 | invariant of every interleaving of the revision loop |
| RevisionLoop.CallsAreLinearizable | src/modules/auth/pending-signup-store.js:41-63 | the document is the fold of the committed mutators; every result comes from the value its commit replaced, within its call; failed attempts leave nothing |
| RevisionLoop.AttemptsAreLostToOthers | src/modules/mcp/oauth-store.js:138-158 | in every interleaving a caller is in its k-th attempt only if k commits came in between, and gives up only after eight |
| RevisionLoop.CallsEnd | src/modules/mcp/oauth-store.js:138-158 | a call ends after at most sixteen database calls of its own, whatever others do |
| RevisionLoop.UnbumpedWritesAreLost | src/modules/mcp/oauth-store.js:138-184 | over every run: what a write that keeps `_rev` established is lost exactly when a caller holding an older copy commits without it |
| SignupCodes.PendingSignup.Verify | src/modules/auth/auth-service.js:184-199 | the verify mutator: expired, too many attempts, wrong code counted, ok consumed |
| SignupCodes.PendingSignup.Resend | src/modules/auth/auth-service.js:154-164 | the resend mutator with its limits, new code and reset attempts |
| SignupCodes.AtMostThirtyAnswers | src/modules/auth/auth-service.js:152-199 | in every interleaving at most 5 × (1 + 5) = 30 callers learn whether a code is right |
| SignupCodes.AtMostOneOk | src/modules/auth/auth-service.js:184-199 | at most one caller is ever told ok |
| SignupCodes.ToldByHistory | src/modules/auth/auth-service.js:152-199 | in every interleaving a caller is told ok iff, by the answers committed before, the record is still there, unexpired, short of five wrong answers since the code drawn last, and that is the code |
| SignupCodes.ThirtyAnswersAreReached | src/config/config.js:136-138 | a run of the loop in which thirty callers are told |
| OAuthGrants.GrantRecord.CreateGrantTokens | src/modules/mcp/oauth.js:350-369 | the new pair, expiries and the window of superseded access tokens |
| OAuthGrants.GrantRecord.RefreshWith | src/modules/mcp/oauth.js:431-486 | the refresh mutator: refusals, sealed retry, reuse revocation, rotation |
| OAuthGrants.GrantRecord.Revoke | src/modules/mcp/oauth.js:500-513 | a presented token of the grant revokes it, anything else changes nothing |
| OAuthGrantRuns.InvRun | src/modules/mcp/oauth.js:431-486 | in every reachable state a stored replay seals the live pair and names the last retired hash |
| OAuthGrantSafety.RefreshByAge | src/modules/mcp/oauth.js:431-486 | what a presented refresh token yields, by how many rotations ago it was live |
| OAuthGrantSafety.ConsideredExactly | src/modules/mcp/oauth.js:434-442 | a refresh is looked at iff it is by the grant’s client for its resource, the grant is live and the last pair not out of date |
| OAuthGrantSafety.NotConsidered | src/modules/mcp/oauth.js:434-442 | any other refresh changes nothing and is rejected or invalid, by the age of its token |
| OAuthGrantSafety.TheftByAge | src/modules/mcp/oauth.js:443-468 | exactly which presentations of a retired refresh token are theft, a retry, or unverified |
| OAuthGrantSafety.OneSuccessorPerToken | src/modules/mcp/oauth.js:443-486 | a rotated token never mints again: it yields its one successor pair, a refusal or revocation |
| OAuthGrantSafety.InventedTokenIsRefused | src/modules/mcp/oauth.js:435-472 | a token nobody minted is refused without a trace |
| OAuthGrantSafety.RememberedRefresh | src/modules/mcp/oauth.js:474 | exactly the ten refresh tokens retired last are remembered |
| OAuthGrantSafety.AccessLifetime | src/modules/mcp/oauth.js:350-369 | an access token authenticates until its own expiry for exactly 16 later rotations |
| OAuthGrantSafety.OnlyMintedAuthenticate | src/modules/mcp/oauth.js:551-562 | a bearer is let in only with an access token minted for this grant and for its resource |
| OAuthGrantSafety.GrantStaysWithItsClient | src/modules/mcp/oauth.js:396-410 | over every run a grant keeps its client and resource, and only an offline one rotates |
| OAuthGrantSafety.RevokedByToken | src/modules/mcp/oauth.js:500-513 | over every run a presented token revokes iff it is the live refresh token or an access token still remembered |
| OAuthGrantSafety.RevokedByOthers | src/modules/mcp/oauth.js:443-468 | else a grant is revoked iff it was, by the bulk revocation, or by a refresh answered as theft |
| OAuthGrantSafety.RevokedForGood | src/modules/mcp/oauth.js:551-562 | no call revives a revoked grant, and no token of it authenticates |
| OAuthGrantSafety.RetryAnsweredExactly | src/lib/refresh-replay.js:81-89 | over every run: a rotated token is answered with its successor again iff nothing was rotated since and the same recognised client asks within the grace period of the rotation |
| OAuthBulkRevocation.GuardIsExact | src/modules/mcp/oauth.js:431-486 | which refreshes, revocations and touches write a grant back live, by the guards of their branches |
| OAuthBulkRevocation.BulkRevocationIsLost | src/modules/mcp/oauth-store.js:178-184 | over every run: a bulk revocation lasts iff no caller that had read the grant before writes it back live |
| OAuthBulkRevocation.ScheduleDecides | src/modules/mcp/oauth-store.js:138-184 | for every grant and request: read, bulk revocation, write loses the revocation iff the guards let the write through |
| OAuthBulkRevocation.TouchUndoesRevocation | src/modules/mcp/oauth.js:566-572 | a run in which noting the use of a token revives a revoked grant |
| OAuthBulkRevocation.RefreshUndoesRevocation | src/modules/mcp/oauth.js:469-486 | a run in which a refresh does, and the retired access token still authenticates |
| OAuthCodes.CodeStore.ConsumeAuthorizationAndCreateCode | src/modules/mcp/oauth-store.js:78-104 | approval stores the code and then marks the request, each write able to fail |
| OAuthCodes.CodeStore.ConsumeCodeAndCreateGrant | src/modules/mcp/oauth-store.js:111-131 | an exchangeable code is marked used and its grant stored, else nothing changes |
| OAuthCodes.CodeStore.SaveAuthorization | src/modules/mcp/oauth-store.js:41-55 | a new request replaces the ones no longer open |
| OAuthCodes.CodeStore.MarkAuthorizationUsed | src/modules/mcp/oauth-store.js:62-76 | a denied request is marked used exactly when it could still be decided |
| OAuthCodes.AtMostOneEach | src/modules/mcp/oauth-store.js:78-131 | over every run a code makes at most one grant; a request makes one code per half-written approval, plus at most one |
| OAuthCodes.SecondCodeExactly | src/modules/mcp/oauth-store.js:78-104 | over every run an approval that goes through makes the request's first code iff none of that request failed half-way before |
| OAuthCodes.GrantsTraceBack | src/modules/mcp/oauth.js:381-412 | every grant has the client, user, resource and scopes of its request and a connection it allowed |
| OAuthCodes.ExchangeNeedsVerifier | src/modules/mcp/oauth.js:344-348 | a grant is made only for the request's client and for who knows its code verifier |
| OAuthCodeStories.ApprovedExactly | src/modules/mcp/oauth.js:296-334 | over every run an approval makes a code iff the request waits for this page and allows the connection; the code is that of the request |
| OAuthCodeStories.DeniedExactly | src/modules/mcp/oauth.js:273-277 | a denial decides a request iff it waits for it |
| OAuthCodeStories.ExchangedExactly | src/modules/mcp/oauth.js:381-414 | over every run an exchange makes a grant iff the code is presented in time, for the first time, by its client with its redirect, resource and verifier; the grant says what was asked for and approved |
| OAuthCodeStories.OneGrantPerCode | src/modules/mcp/oauth-store.js:111-131 | over every run no two grants come from one code |
| OAuthCodeStories.CleaningIsInvisible | src/modules/mcp/oauth-store.js:49-54 | with a clock that never goes back only the deadlines count, not when the stores were cleared |
| OAuthCodes.HalfWrittenApproval | src/modules/mcp/oauth-store.js:95-103 | a run in which one request yields two codes, both exchangeable |
| SessionRuns.CreatedSession | src/modules/auth/session-store.js:26-68 | over every run: a new session alone knows its token, is active for its user until it expires, rotates until the earlier of its two ends, and changes nothing for others |
| Sessions.SessionStore.RotateSession | src/modules/auth/session-store.js:133-178 | rotation, sealed retry, reuse revocation or refusal, with the whole new store |
| Sessions.SessionStore.RevokeByRefreshToken | src/modules/auth/session-store.js:180-199 | the session of the token, and no other, is revoked |
| Sessions.SessionStore.RevokeAllForUser | src/modules/auth/session-store.js:201-221 | the loop revokes exactly the user's live sessions and counts them |
| Sessions.SessionStore.PruneExpired | src/modules/auth/session-store.js:223-244 | the loop removes exactly the stale sessions |
| SessionRuns.PresentationsAgree | src/modules/auth/session-store.js:133-178 | two presentations of one refresh token, whatever happens between, never yield different successors |
| SessionChains.PresentationByAge | src/modules/auth/session-store.js:133-178 | over every run a token is answered by how many rotations ago it was live: renewed, given its successor again iff the recognised retry of the last rotation, theft for the last ten else, refused if older |
| SessionChains.UnknownIsRefused | src/modules/auth/session-store.js:133-178 | any other token is refused without a trace |
| SessionChains.RevokedExactly | src/modules/auth/session-store.js:133-221 | a call leaves a session revoked iff it was, or it is a logout with its live token, a logout of its user everywhere, or a presentation answered as theft of it |
| SessionChains.ReuseEndsTheSession | src/modules/auth/session-store.js:168-170 | a session answered as theft is dead, and nothing activates, renews or replays it afterwards |
| SessionChains.LogoutAllCounts | src/modules/auth/session-store.js:209-219 | the count reported is the number of sessions that were revoked |
| SessionChains.PrunedExactly | src/modules/auth/session-store.js:223-244 | over every run a session is dropped iff it ended, or was revoked, more than a week ago |
| SessionRuns.RevokedForGood | src/modules/auth/session-store.js:133-221 | a revoked session is never active again |
| SessionRuns.NeverPastAbsoluteEnd | src/modules/auth/session-store.js:151 | over any rotations expiresAt stays within absoluteExpiresAt when the lifetimes are ordered |
| SessionRuns.CapNeedsOrderedLifetimes | src/modules/auth/session-store.js:26-50 | creation respects the cap iff refreshTtl ≤ absoluteTtl |
| SessionRuns.PruningIsInvisible | src/modules/auth/session-store.js:223-244 | pruning changes no isSessionActive answer, now or later |
| SessionsMongo.InterleavedPresentationsAgree | src/modules/auth/session-store.js:70-131 | with every database call its own step, all tokens given for one refresh token are the same |
| SessionsMongo.OneCallerMints | src/modules/auth/session-store.js:84-105 | a swap that succeeds is the first for its presented token |
| SessionsMongoChains.LookupByAge | src/modules/auth/session-store.js:73-83 | in every interleaving the first lookup finds a stored session by its live token alone |
| SessionsMongoChains.ReusedByAge | src/modules/auth/session-store.js:107-131 | who missed is answered by the age of the token: retry of the last rotation, theft for the last ten else, or refusal |
| SessionsMongoChains.LoggedOutExactly | src/modules/auth/session-store.js:180-207 | in every interleaving logouts end exactly the sessions they are about |
| SessionsMongoChains.ReportedTheftEnded | src/modules/auth/session-store.js:120-129 | whoever is told that a token was stolen is told so of a session nothing activates any more |
| SessionsMongo.SwapIsRotation | src/modules/auth/session-store.js:84-105 | the conditional write from an older copy equals the rotation the file store would make |
| SessionsMongo.InterleavedRevokedForGood | src/modules/auth/session-store.js:70-131 | no interleaving makes a revoked session active |
| SessionsMongo.InterleavedNeverPastAbsoluteEnd | src/modules/auth/session-store.js:70-106 | nor carries a session past its absolute end when the lifetimes are ordered |
| JsonStores.JsonFile.Read | src/lib/json-store.js:53-71 | a read loads once and returns the contents, changing none of them |
| JsonStores.JsonFile.Update | src/lib/json-store.js:75-90 | an uninterrupted update: result and new contents for every mutator and fault |
| JsonStores.UpdatesRunInRequestOrder | src/lib/json-store.js:16-25 | while an update is unsettled no later one has begun, in every interleaving |
| JsonStores.SettledAsIfAlone | src/lib/json-store.js:75-90 | every settled update answers, and leaves the document, as run alone on what the earlier ones left |
| JsonStores.ReadsAreAtomic | src/lib/json-store.js:53-71 | a read answers with the committed document of some moment during the read |
| JsonStores.DiskIsPublishedOrInFlight | src/lib/json-store.js:27-90 | the file holds the published value or that of the one committed update in flight |
| JsonStores.SettledForGood | src/lib/json-store.js:16-25 | a settled update is never reopened or lost |
| JsonStores.UpdateMovesOn | src/lib/json-store.js:16-25 | while an update is unsettled, the first such, or its load, has a next step that takes it nearer to its end |
| JsonStores.ReaderMovesOn | src/lib/json-store.js:27-71 | so has every waiting read, which ends in the published document |
| Signals.SignalTable.NotifySignal | src/modules/mcp/signals.js:7-13 | new version at the young end, eviction to 10000 keys, every waiter of the key answered |
| Signals.SignalTable.WaitForSignal | src/modules/mcp/signals.js:14-36 | answered at once if the version moved or 32 wait already, else asleep |
| Signals.BoundedAlways | src/modules/mcp/signals.js:7-31 | over every run at most 10000 versions and 32 waiters per key |
| Signals.EvictedExactly | src/modules/mcp/signals.js:9-11 | a key keeps its version iff fewer than 10000 other keys were notified since |
| Signals.StaleVersion | src/modules/mcp/signals.js:6-11 | a version read before a notification looks current iff it was the initial one and the key was evicted since |
| Signals.AsleepMeansQuiet | src/modules/mcp/signals.js:12 | who is still asleep has not been notified since falling asleep |
| Signals.EvictedVersionLooksCurrent | src/modules/mcp/signals.js:6-11 | a run in which a notified key's initial version looks current again |
| Signals.NoLostWakeup | src/modules/mcp/signals.js:6-36 | read version, then wait: if asleep in the end, the key was notified at no point after the read |
| SignalStories.FatesAsTold | src/modules/mcp/signals.js:7-36 | over every run exactly the waits that fell asleep and were neither notified nor cancelled since sleep; every other was told the version of its moment |
| WakeUps.NoLostWakeup | src/modules/mcp/broker.js:413-442 | over every interleaving: no completion of the job of a sleeper has both stored its outcome and notified, unless the sleeper's version was evicted |
| WakeUps.JobFirstLosesWakeups | src/modules/mcp/broker.js:414-416 | reading the job before the version would lose wakeups: a run |
| WakeUps.NotifyFirstLosesWakeups | src/modules/mcp/broker.js:307-325 | so would notifying before the outcome is stored: a run |
| WakeUps.EvictionLosesWakeups | src/modules/mcp/signals.js:9-11 | the exception for evicted versions is needed: a run |
| RateLimits.RateLimiter.ConsumeRateLimit | src/core/middleware/rate-limit.js:25-42 | the new buckets and the verdict, capacity refusal included |
| RateLimits.RateLimiter.Sweep | src/core/middleware/rate-limit.js:17-20 | the loop removes exactly the buckets older than two windows |
| RateLimits.AtMostTwiceTheLimit | src/core/middleware/rate-limit.js:25-42 | in no closed interval one window long are more than 2·max calls of a key granted |
| RateLimits.BurstAcrossTheBoundary | src/core/middleware/rate-limit.js:29-36 | 2·max calls are granted within one window length, all but one of them within a millisecond |
| RateLimits.AtMostTheLimitExactly | src/core/middleware/rate-limit.js:29-36 | from any state, one window length stays within max whatever follows iff no earlier window is still open with room |
| RateLimits.NeverAboveCapacity | src/core/middleware/rate-limit.js:30-36 | over every run at most 20000 buckets |
| RateLimits.SweepingIsInvisible | src/core/middleware/rate-limit.js:17-20 | below capacity sweeps change no verdict of any run |
| RateLimits.RetryAfterIsExact | src/core/middleware/rate-limit.js:39-40 | a retry is granted iff it waits at least the named seconds |
| Paths.Normalize | src/modules/ide-codewriter/util/paths.js:14-51 | the normaliser's result, error order included |
| Paths.AcceptedPathStaysInside | src/modules/ide-codewriter/util/paths.js:14-51 | every accepted path has only segments that descend from the root |
| Paths.RefusedExactly | src/modules/ide-codewriter/util/paths.js:14-48 | refused iff something is wrong with the trimmed text, for the first such reason |
| Paths.AcceptedExactly | src/modules/ide-codewriter/util/paths.js:38-50 | else the segments are kept in order, without empty ones and dots |
| Paths.TrimsExactly | src/modules/ide-codewriter/util/paths.js:18 | trimming takes off all white space of ECMA-262 at both ends, and nothing else |
| Paths.NormalizingTwice | src/modules/ide-codewriter/util/paths.js:14-51 | an accepted result is a fixpoint iff it is trimmed and shows no home marker or drive |
| Paths.NormalizingTwiceCanFail | src/modules/ide-codewriter/util/paths.js:28-33 | `./~x` is accepted as `~x`, which is refused |
| Globs.Translate | src/modules/ide-codewriter/util/paths.js:92-165 | the one-pass loop with its brace stack emits the specified text |
| GlobMeaning.CompiledTextReads | src/modules/ide-codewriter/util/paths.js:92-166 | read as a regular expression, the emitted text nests exactly as the braces do |
| GlobMeaning.CompiledGlobMeansGlob | src/modules/ide-codewriter/util/paths.js:92-166 | for every glob and path the pattern matches iff the glob does with each `**` held to one line; for newline-free paths iff the glob does |
| GlobMeaning.GlobInLine | src/modules/ide-codewriter/util/paths.js:100-111 | holding each `**` to one line only loses paths, and none that are newline-free |
| GlobMeaning.DeepStarStopsAtNewline | src/modules/ide-codewriter/util/paths.js:100-111 | `**` means a line terminator that its pattern misses |
| GlobMeaning.StarSpansNewline | src/modules/ide-codewriter/util/paths.js:100-114 | `a*` and its pattern agree on a text with one |
| GlobCompiler.GlobToRegExp | src/modules/ide-codewriter/util/paths.js:92-166 | the compiled source matches every path as the glob means with each `**` held to one line, newline-free ones as it means |
| GlobCompiler.BuildGlobMatcher | src/modules/ide-codewriter/util/paths.js:175-195 | the matcher accepts a path iff no exclusion means it and some inclusion does, if any: on every path with each `**` held to one line, on newline-free ones as meant |
| GlobSets.RangeLists | src/modules/ide-codewriter/util/paths.js:121-135 | a range lists what is between its ends, and is refused if they are in the wrong order |
| GlobSets.CharacterLists | src/modules/ide-codewriter/util/paths.js:121-135 | any other character of a class lists itself |
| GlobSets.BracketReads | src/modules/ide-codewriter/util/paths.js:121-135 | a bracket is read up to the first closing one; a mark negates it |
| WorkspaceIndex.Workspace.IngestManifest | src/modules/ide-codewriter/workspace/registry.js:90-106 | the whole new index after a chunk, with reset |
| WorkspaceIndex.Workspace.ApplyChange | src/modules/ide-codewriter/workspace/registry.js:145-182 | the whole new index and log after a change of each kind |
| WorkspaceIndex.IndexedBytesExactly | src/modules/ide-codewriter/workspace/registry.js:90-182 | after every run indexedBytes is the sum of sizes plus the bytes moves overwrote since the last reset |
| WorkspaceIndex.IndexedBytesAreTheSum | src/modules/ide-codewriter/workspace/registry.js:90-182 | without such moves it is the sum of sizes |
| WorkspaceIndex.MoveOntoIndexedDrifts | src/modules/ide-codewriter/workspace/registry.js:152-157 | a run in which the total is off by the overwritten size |
| WorkspaceIndex.ChangesSinceIsHistory | src/modules/ide-codewriter/workspace/registry.js:185-187 | after every run changesSince(s) is changes s+1.. in order while at most 500 are asked for |
| WorkspaceIndex.ChangesSinceCompleteExactly | src/modules/ide-codewriter/workspace/registry.js:180-187 | it is complete iff at most 500 changes followed s |
| WorkspaceIndex.IndexedUnderOwnPath | src/modules/ide-codewriter/workspace/registry.js:90-166 | after every run each file is indexed under its own path |
| WorkspaceIndex.IndexByEvents | src/modules/ide-codewriter/workspace/registry.js:90-182 | over every run a path is indexed, with its size, revision and unsaved mark, as the events say, and so is completeness |
| WorkspaceIndex.IndexedExactly | src/modules/ide-codewriter/workspace/registry.js:90-182 | a path is indexed iff the last event that concerns it put it there |
| Hub.AgentHub.OnConnection | src/modules/ide-codewriter/bridge/hub.js:274-278 | the whole new hub state after a connection |
| Hub.AgentHub.OnClose | src/modules/ide-codewriter/bridge/hub.js:303-312 | requests aborted, agent and user sets updated, served workspaces closed |
| Hub.AgentHub.OnWorkspaceOpened | src/modules/ide-codewriter/workspace/registry.js:309-346 | reuse, refused rebinding or registration, and the selection loop of hub.js |
| Hub.AgentHub.OnWorkspaceSelected | src/modules/ide-codewriter/bridge/hub.js:387-392 | only the serving agent moves its selection |
| Hub.AgentHub.OnWorkspaceClosed | src/modules/ide-codewriter/bridge/hub.js:441-445 | only the serving agent closes its workspace |
| Hub.AgentHub.SendRequest | src/modules/ide-codewriter/bridge/hub.js:73-98 | refused when the socket is not open, else waiting |
| Hub.AgentHub.SettleRequest | src/modules/ide-codewriter/bridge/hub.js:158-180 | the first answer settles, a late one changes nothing |
| HubRuns.ByUserIsTheInverse | src/modules/ide-codewriter/bridge/hub.js:274-312 | over every run the per-user sets are the inverse of the agent map, none empty |
| HubRuns.OthersUntouched | src/modules/ide-codewriter/bridge/hub.js:362-476 | a step of one agent changes no workspace of another |
| HubRuns.OneSelectedEach | src/modules/ide-codewriter/bridge/hub.js:381-392 | each agent has at most one selected workspace, each workspace a connected agent of its user |
| HubRuns.OneMatch | src/modules/ide-codewriter/workspace/registry.js:316-319 | the search for an open workspace never has two answers |
| HubRuns.SettledExactlyOnce | src/modules/ide-codewriter/bridge/hub.js:73-189 | a request is settled at most once and until then waits at a connected agent |
| HubRuns.AnswerStays | src/modules/ide-codewriter/bridge/hub.js:158-167 | an answer never changes |
| HubRuns.NothingAfterDisconnect | src/modules/ide-codewriter/bridge/hub.js:303-312 | from its close event on nothing refers to an agent |
| HubStories.WorkspacesAsTold | src/modules/ide-codewriter/bridge/hub.js:362-476 | over every run the workspaces are exactly the tabs opened and not closed since, each as its frames said, indexed by its events, selected iff its agent picked it last |
| HubStories.AnsweredAsTold | src/modules/ide-codewriter/bridge/hub.js:73-189 | over every run a request has the outcome that reached it first, and waits at its agent until one does |
| HubStories.SearchFindsTheTab | src/modules/ide-codewriter/workspace/registry.js:316-319 | the search for an open workspace finds the tab the frame speaks of, and no other |
| WriteGuards.McpSession.NoteRead | src/modules/ide-codewriter/mcp/session.js:55-67 | the normalised path is recorded at the revision, or the path is refused |
| WriteGuards.McpSession.NoteWrite | src/modules/ide-codewriter/mcp/session.js:84-90 | an own write counts as a read of the new revision |
| WriteGuards.McpSession.Forget | src/modules/ide-codewriter/mcp/session.js:70-94 | partial reads and deletes remove the record |
| WriteGuards.McpSession.HasFreshRead | src/modules/ide-codewriter/mcp/session.js:75-82 | true iff the ledger holds exactly this revision |
| WriteGuards.ValidateWriteBatch | src/modules/ide-codewriter/mcp/guards.js:139-186 | the loop computes the specified verdict |
| WriteGuards.UpdateAcceptedExactly | src/modules/ide-codewriter/mcp/guards.js:42-130 | an update is accepted iff well formed and its base is both the current revision and the one last seen under the file's ledger key |
| WriteGuards.LicensedExactly | src/modules/ide-codewriter/mcp/session.js:55-82 | over every history: a well-formed current update is accepted iff the last event of any file with the target's ledger key showed the current revision |
| WriteGuards.ReadLicensesExactly | src/modules/ide-codewriter/mcp/tools/read-tools.js:97-103 | one full read licenses exactly the updates of files that share the read file's ledger key |
| WriteGuards.NeverBlindExactly | src/modules/ide-codewriter/mcp/guards.js:111-130 | for a set of files: over all their histories every accepted update replaces what was last shown of that very file iff no two share a ledger key |
| WriteGuards.AcceptedUpdateWasSeen | src/modules/ide-codewriter/mcp/guards.js:111-130 | when the target's and all earlier files' paths are canonical, an accepted update replaces what this client last read in full or wrote of that file |
| WriteGuards.AcceptedBatchWasSeen | src/modules/ide-codewriter/mcp/guards.js:139-186 | so does every such update of an accepted batch |
| WriteGuards.DeleteAcceptedExactly | src/modules/ide-codewriter/mcp/guards.js:189-214 | the same condition, exactly, for deletes |
| WriteGuards.PartialReadWithdraws | src/modules/ide-codewriter/mcp/session.js:70-72 | a partial read or delete withdraws the permission |
| WriteGuards.ForeignChangeWithdraws | src/modules/ide-codewriter/mcp/guards.js:111-130 | so does a change by anyone else, whatever revision is quoted |
| WriteGuards.BatchAcceptedExactly | src/modules/ide-codewriter/mcp/guards.js:139-186 | a batch is accepted iff it has 1 to 100 entries that all pass with distinct paths |
| WriteGuards.RejectionReportsAll | src/modules/ide-codewriter/mcp/guards.js:167-183 | a rejection names every failing entry with its own reason |
| WriteRefusals.RejectionListsExactly | src/modules/ide-codewriter/mcp/guards.js:150-183 | a rejection lists exactly the entries something is wrong with, in order, with path and reason, a repeated path included |
| WriteRefusals.CreateAcceptedExactly | src/modules/ide-codewriter/mcp/guards.js:64-82 | a creation is accepted iff the path is free and nothing in the entry claims otherwise |
| WriteRefusals.RefusedBecause | src/modules/ide-codewriter/mcp/guards.js:42-130 | each reason is given exactly when it applies |
| WriteRefusals.SizeIsEncodedLength | src/modules/ide-codewriter/mcp/guards.js:56-61 | the size is the length in UTF-8 |
| WriteRefusals.Utf8ReadsBack | src/modules/ide-codewriter/mcp/guards.js:56 | that encoding can be read back, and none shorter could (section 3 of RFC 3629) |
| WriteGuards.OtherFileLicenses | src/modules/ide-codewriter/mcp/session.js:55-62 | a read of `a` licenses the write of ` a` |
| WriteGuards.OtherFileLicensesCanonical | src/modules/ide-codewriter/mcp/tools/read-tools.js:97-103 | and a read of ` a` that of `a` |
| SessionLedgers.SessionRegistry.Lookup | src/modules/ide-codewriter/mcp/session.js:153-170 | the session and ledger found or made, and their activity times |
| SessionLedgers.SessionRegistry.SweepIdle | src/modules/ide-codewriter/mcp/session.js:182-190 | both loops remove exactly the idle entries |
| SessionLedgers.OneLedgerEach | src/modules/ide-codewriter/mcp/session.js:132-190 | over runs whose sweeps split nothing, all sessions of one user and client share one ledger |
| SessionLedgers.SweepSharesExactly | src/modules/ide-codewriter/mcp/session.js:182-190 | a sweep keeps the sharing iff it drops no ledger of a session it keeps |
| SessionLedgers.DifferentLedgersExactly | src/modules/ide-codewriter/mcp/session.js:132-190 | over every run: two live sessions of one client hold different ledgers iff a sweep dropped the client's ledger between the calls that made them |
| SessionLedgers.KnownExactly | src/modules/ide-codewriter/mcp/session.js:153-190 | over every run exactly the sessions and ledgers are known that were called for and neither dropped nor idle for six hours at a sweep since |
| SessionLedgers.LateCallSplits | src/modules/ide-codewriter/mcp/session.js:96-99 | a late counted call lets two live sessions of one client hold different ledgers |
| Verification.VerificationState.Assess | src/modules/ide-codewriter/workspace/verification.js:217-247 | the loop sorts the required commands into pending, failed and stale |
| Verification.VerificationState.RecordThenAssess | src/modules/ide-codewriter/mcp/tools/command-tools.js:445-458 | recording a run and clearing the state if that satisfies it |
| Verification.SatisfiedExactly | src/modules/ide-codewriter/workspace/verification.js:217-247 | satisfied iff nothing is enforced or pending, or every required command's latest run passed after the write |
| VerificationStories.StateAsTold | src/modules/ide-codewriter/workspace/verification.js:189-253 | over every run commands, latest runs, the unproven write and its paths are as announced, run and written |
| VerificationStories.ListsAsTold | src/modules/ide-codewriter/workspace/verification.js:217-247 | an evaluation lists as pending the demanded commands that never ran, as stale those whose latest run did not start after the write, as failed those whose did and failed |
| VerificationStories.GateWaitsExactly | src/modules/ide-codewriter/mcp/tools/command-tools.js:530-566 | over every run the gate is open iff every run started and not yet collected or forgotten has ended and the evaluation is satisfied |
| VerificationStories.HistoryAsTold | src/modules/ide-codewriter/workspace/verification.js:206-210 | the fifty latest runs are kept, newest first |
| Verification.VerificationState.Configure | src/modules/ide-codewriter/workspace/verification.js:189-192 | the new commands, enforced only if one is required |
| Verification.VerificationState.Dirty | src/modules/ide-codewriter/workspace/verification.js:200-203 | a write restarts the demand and adds its paths |
| Verification.GateNeedsProof | src/modules/ide-codewriter/mcp/tools/command-tools.js:530-566 | over every run, commands and enforcement as at the last write: the enforced gate opens only if each required command has a successful run started strictly after it |
| Verification.GateProvesExactly | src/modules/ide-codewriter/workspace/verification.js:189-253 | for commands `first` under which a write was settled and any announced `later`: in every run the open gate is proof iff `later` requires only what `first` required while enforced |
| Verification.AnnouncingKeepsTheGateOpen | src/modules/ide-codewriter/workspace/verification.js:189-192 | announcing commands never closes an open gate whose write is settled |
| Verification.GateOpensWhenProven | src/modules/ide-codewriter/mcp/tools/command-tools.js:530-566 | and it opens once the latest runs are such and none is left running |
| Verification.LateCommandIsNotAsked | src/modules/ide-codewriter/workspace/verification.js:189-253 | a run in which a command announced later is not asked for |
| SmtpReplies.ReplyReader.OnChunk | src/modules/mail/smtp-client.js:27-46 | one data event: limit, buffering and the loop over lines |
| SmtpReplies.OutcomeOfChunks | src/modules/mail/smtp-client.js:27-46 | the outcome for every stream and every split into chunks |
| SmtpReplies.SplitsDoNotMatter | src/modules/mail/smtp-client.js:27-46 | within 64 KiB the split is irrelevant and the outcome is the whole-stream parse |
| SmtpReplies.ReplyExactly | src/modules/mail/smtp-client.js:32-45 | a stream yields a reply iff some first lines of it frame one |
| SmtpReplies.MatchedExactly | src/modules/mail/smtp-client.js:36-38 | the lines taken for reply lines are those of section 4.2 of RFC 5321 |
| SmtpReplies.OutcomeExactly | src/modules/mail/smtp-client.js:32-45 | for every stream the first line that neither is empty nor announces another decides: more awaited, reply, malformed, or another code |
| SmtpReplies.RenderedIsReadBack | src/modules/mail/smtp-client.js:8-55 | a reply in the form of section 4.2.1 of RFC 5321 is read back whole |
| DotStuffing.ReceiverReads | src/modules/mail/smtp-client.js:81-83 | for every body the receiver finds the end of data where it was put, and what it reads |
| DotStuffing.UnstuffingUndoesExactly | src/modules/mail/smtp-client.js:81-83 | un-stuffing yields the normalized body iff no period follows a bare CR, U+2028 or U+2029 |
| DotStuffing.BareDotIsDoubled | src/modules/mail/smtp-client.js:81-83 | a bare CR and a period are read back with two periods |
| DotStuffing.NoLoneDot | src/modules/mail/smtp-client.js:81-83 | no encoded line is a lone period |
| DotStuffing.NormalizeKeepsExactly | src/modules/mail/smtp-client.js:82 | normalizing changes a text iff it has a bare line feed |

## Left out

- HTTP, routing, rendering, logging, audit, mail transport and the MongoDB, WebSocket and MCP libraries: only the atomic operations the code relies on are modelled.
- Cryptography: digests, tokens and sealing are structural, as above; whether a seal opens is a flag of the request.
- Characters are code points, not UTF-16 units, and JSON values are taken as already canonical.
- Broker: arguments and results are opaque texts; tenant and environment keys are taken already lower-cased; heartbeats, connection checks and the payload size limit are not modelled. A call reads its clock before the store's lock and pruning reads it again inside; the model uses one reading for both.
- BrokerStories: a wait is taken to hand over, other than a completed job, only what it saw to be terminal; terminal is for good.
- BrokerMongo: the pending count and the insert are separate calls there, so the limit of 50 is claimed for the file store only; claims deduplicated within one process are modelled as separate claims.
- RevisionLoop: a write failure of the database ends a caller without a result.
- SignupCodes: replacing a pending signup by a new start and its expiry by the database are not modelled; each mutator reads the clock once.
- OAuthGrants: listing, per-connection revocation and the refresh health fields are not modelled.
- OAuthCodes: the database path is one transaction, the case of the model in which no write fails.
- JsonStores: the append-only log uses the same chain; its line format is not modelled.
- Signals: the second version check after a waiter registers runs in the same turn as the first and cannot fire; it is not modelled.
- WakeUps: the broker is the file store's; a waiter that runs out of time leaves the loop by one of the broker's other calls.
- OAuthBulkRevocation: one grant at a time; `updateMany` writes each document in one step.
- RateLimits: the sweep timer is an event at any time; one limit per bucket key is assumed in the theorems, as at every call site.
- Globs: the reader of regular expressions covers the fragment the compiler emits.
- Hub: heartbeats, command streams and the liveness check are not modelled; the close of the whole server is not.
- WriteGuards: the writes themselves, the second revision check after fetching old contents and the desktop's own check are not part of this model.
- WorkspaceIndex: sizes are whole numbers; git, project and language fields are not modelled.
- Verification: detection of commands from project files is not modelled.
- SmtpReplies: timeouts, aborts and closed sockets reject the reply at any time and are not modelled; decoding bytes into text is left to the reader's decoder.
