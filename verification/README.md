# GitRank: queue, keys, breaker and evidence, verified

A Dafny model of the parts of GitRank whose correctness spans operations, runs or
concurrent callers, with proofs. `dafny verify dfyconfig.toml` checks everything.

**The scheduler's job queue** (`Jobs`, `QueueSpec`, `JobQueue`, `QueueEvents`,
`QueueInvariants`, `QueueLeases`, `QueueRetries`, `QueueAnswers`). `JobQueue.InMemoryJobQueue` is the queue
with its five mutable fields; each method runs under the queue's mutex and is proved to be
one step of `QueueSpec`, and `QueueAnswers` says what each step answers and changes. `QueueEvents.Run` is any sequence of those steps from the empty
queue: on a clock that never goes back, with jobs made by `NewQueueJob` under new
identifiers, and with restores of states the queue itself exported, as the scheduler does
when saving a change fails (`gitrank/services/scheduler-worker/internal/service/state_store.go`).
A restore undoes what happened since the export. What holds of every reachable state holds
through all restores. What holds from one state to a later one (a finished job, a lease, a
backoff schedule) is stated along the way that led there, `QueueEvents.Throughout`: a restore
takes that way back to its export, and only a restore that goes back behind the first state
leaves it.

**Requests and dedupe keys** (`Text`, `Requests`, `SyncBuilder`, `WorkIdentity`).
Validation, the printed key, the proof that the key can be read back, and the end-to-end
statement with the queue: different work is never merged and the same work is never held
twice.

**The circuit breaker** (`Circuit`, `Client`). The breaker and the retry loops as classes,
and a step system in which calls enter, report late, or leave without reporting because
their backoff sleep was canceled.

**Evidence** (`KeyedFold`, `UniqueStrings`, `Badges`, `Contributions`, `Skills`,
`ScoreHistory`, `Repositories`, `Streaks`). Five keyed merges share one theory of ordered
folds: what the result means, and that merging in portions is merging at once.

**Smaller state machines** (`Deliveries`, `InstallationTokens`, `SyncRuns`, `AutoSync`).

`Arithmetic`, `Text` and `Common` are shared.

Conventions: times are integers on one clock; clock readings, random identifiers, JSON
encodings and network answers are parameters; a Go `(value, error)` pair is a `Result`; a
JavaScript `Map` is a map together with the list of its keys in insertion order; a date
string is a `Stamp`, its text with what `Date.parse` makes of it.

Where the code and its documentation differ, the model follows the code:

- `gitrank/docs/mermaid-flows.md` shows a running state between leased and completed. No
  queue operation produces `running` (nor `failed`); `QueueInvariants.JobsStaySound` says so.
- `gitrank/docs/architecture.md` promises jitter on queue retries. `Fail` adds none: the
  delay is exactly the doubled backoff, in 64-bit arithmetic that wraps round once the
  product leaves 64 bits (`QueueRetries.BackoffFitsExactly`, `QueueRetries.BackoffWrapsRound`,
  `QueueRetries.BackoffVanishes`).
- The same document has dedupe keys contain a version. The code prints mode and target only.
- It also has the open breaker fail fast until a half-open probe. That holds
  (`Circuit.OpenUntilInterval`), but a probe whose backoff sleep is canceled keeps its slot;
  no call is ever admitted again exactly when every slot is lost this way and nothing is in
  flight, and every breaker can get there (`Circuit.StuckForever`, `Circuit.StuckIsReachable`).

## Model

| member | source | states |
|---|---|---|
| Jobs.NewQueueJobIsBrandnew | gitrank/packages/store/jobs.go:104-147 | Exactly which inputs make a job; it carries every field of the input, texts trimmed, is pending, unattempted and unleased, scheduled now and due when scheduled unless told otherwise |
| Jobs.RetryDelayExact | gitrank/packages/store/memory.go:416-421 | The computed delay is the doubling backoff exactly when that product fits a signed 64-bit integer |
| JobQueue.InMemoryJobQueue.constructor | gitrank/packages/store/memory.go:136-138 | The queue starts empty with all counters at nought |
| JobQueue.InMemoryJobQueue.Enqueue | gitrank/packages/store/memory.go:140-149 | Appends without looking at dedupe keys; only a missing identifier is refused |
| JobQueue.InMemoryJobQueue.EnqueueUnique | gitrank/packages/store/memory.go:151-165 | The whole new state and answer: the first active job with the same non-empty key stands for the request, otherwise the job is appended |
| JobQueue.InMemoryJobQueue.FindActive | gitrank/packages/store/memory.go:158-162 | Finds the first active job with the non-empty key, or none |
| JobQueue.InMemoryJobQueue.RecordDeadLetter | gitrank/packages/store/memory.go:203-208 | Adds a record of the job and counts a failure without touching any job |
| JobQueue.InMemoryJobQueue.AllJobs | gitrank/packages/store/memory.go:167-172 | Lists the jobs after reaping, and reaping is all it changes |
| JobQueue.InMemoryJobQueue.FindJob | gitrank/packages/store/memory.go:174-184 | The first job with the identifier, after reaping |
| JobQueue.InMemoryJobQueue.FindDeadLetter | gitrank/packages/store/memory.go:192-201 | The first record with the identifier |
| JobQueue.InMemoryJobQueue.ExportState | gitrank/packages/store/memory.go:538-552 | The export is the state after reaping |
| JobQueue.InMemoryJobQueue.RestoreState | gitrank/packages/store/memory.go:554-563 | The queue becomes the given state, nothing of the old one remains |
| JobQueue.InMemoryJobQueue.JobIndex | gitrank/packages/store/memory.go:565-572 | The position of the first job with the identifier, or none |
| JobQueue.InMemoryJobQueue.ReapExpiredLeases | gitrank/packages/store/memory.go:574-582 | Exactly the leased jobs whose deadline has come become pending again, attempts uncounted |
| JobQueue.InMemoryJobQueue.CountBusy | gitrank/packages/store/memory.go:216-221 | The number of leased and running jobs |
| JobQueue.InMemoryJobQueue.LeaseReady | gitrank/packages/store/memory.go:210-251 | New state and jobs handed out, as specified by the effective quota over the reaped queue |
| JobQueue.InMemoryJobQueue.LeaseJob | gitrank/packages/store/memory.go:253-288 | Leases one named ready job below the concurrency limit; on each refusal the queue is only reaped |
| JobQueue.InMemoryJobQueue.Complete | gitrank/packages/store/memory.go:290-307 | Any unfinished job succeeds and gives up its lease; a finished one is returned unchanged |
| JobQueue.InMemoryJobQueue.Pause | gitrank/packages/store/memory.go:309-325 | Any unfinished job is paused and gives up its lease |
| JobQueue.InMemoryJobQueue.Resume | gitrank/packages/store/memory.go:327-344 | Only a paused job is resumed, due from now |
| JobQueue.InMemoryJobQueue.Cancel | gitrank/packages/store/memory.go:346-362 | Any unfinished job is canceled and gives up its lease |
| JobQueue.InMemoryJobQueue.CancelByCorrelation | gitrank/packages/store/memory.go:364-384 | Cancels exactly the unfinished jobs of the trimmed, non-empty correlation and returns them in queue order |
| JobQueue.InMemoryJobQueue.Fail | gitrank/packages/store/memory.go:386-425 | One more attempt: retried after the backoff, or dead with one record and one counted failure |
| JobQueue.InMemoryJobQueue.FailNonRetryable | gitrank/packages/store/memory.go:427-458 | Dead at once with all attempts used, one record and one counted failure |
| JobQueue.InMemoryJobQueue.ReplayDeadLetter | gitrank/packages/store/memory.go:460-508 | Stamps the record in every case, then enqueues a new job for it unless the work is active or the job cannot be made |
| QueueAnswers.EnqueueAnswers | gitrank/packages/store/memory.go:140-149 | Refused for want of an identifier only, otherwise at the end of the queue |
| QueueAnswers.EnqueueUniqueAnswers | gitrank/packages/store/memory.go:151-165 | The first pending, leased, running or paused job with the same non-empty key answers and nothing changes; without one the job is appended |
| QueueAnswers.ReapAnswers | gitrank/packages/store/memory.go:574-582 | Exactly the leased jobs whose deadline has come become pending without a deadline |
| QueueAnswers.BusyCounted | gitrank/packages/store/memory.go:216-221 | The workers counted are the places of the leased and running jobs |
| QueueAnswers.LeaseReadyAnswers | gitrank/packages/store/memory.go:210-251 | Due jobs only, in queue order, never beyond the caller's limit or the workers there are; a due job is left behind only when the caller's limit is reached or all workers are occupied |
| QueueAnswers.LeaseJobAnswers | gitrank/packages/store/memory.go:253-288 | The named job is leased exactly when a worker is free and it is due, with its deadline; otherwise nothing but reaping happens |
| QueueAnswers.CompleteAnswers | gitrank/packages/store/memory.go:290-307 | An unfinished job succeeds, loses lease and error, and no other job changes; a finished one is returned |
| QueueAnswers.PauseAnswers | gitrank/packages/store/memory.go:309-325 | An unfinished job is paused and loses its lease; a finished one is refused |
| QueueAnswers.ResumeAnswers | gitrank/packages/store/memory.go:327-344 | Exactly a paused job is resumed, due now |
| QueueAnswers.CancelAnswers | gitrank/packages/store/memory.go:346-362 | An unfinished job is canceled and loses its lease; a finished one is refused |
| QueueAnswers.CancelByCorrelationAnswers | gitrank/packages/store/memory.go:364-384 | Exactly the unfinished jobs of the trimmed correlation are canceled, and they are returned in queue order; a blank correlation cancels nothing |
| QueueAnswers.UnknownIsRefused | gitrank/packages/store/memory.go:565-572 | No operation on one job does anything for an identifier that no job has |
| QueueAnswers.FailAnswers | gitrank/packages/store/memory.go:386-425 | With attempts left the job is pending again, one attempt more, without lease, with the error's text, due after the base backoff (one second by default) doubled per earlier attempt, exactly when that fits 64 bits and congruent to it otherwise; without, it is dead and recorded |
| QueueAnswers.FailNonRetryableAnswers | gitrank/packages/store/memory.go:427-458 | Dead at once and recorded, all attempts used, the error's text kept |
| QueueAnswers.RecordDeadLetterAnswers | gitrank/packages/store/memory.go:203-208 | One record that mirrors the job and one failure more, no job touched |
| QueueAnswers.ReplayAnswers | gitrank/packages/store/memory.go:460-508 | The record is stamped in every case; a new job that asks for the same thing is appended exactly when it can be made and the work is not active |
| QueueAnswers.UnknownRecordIsRefused | gitrank/packages/store/memory.go:464-473 | An unknown record changes nothing |
| QueueAnswers.BuriedThenReplayed | gitrank/packages/store/memory.go:386-508 | Round trip: a buried job that is replayed starts over as what it was, under a new identifier |
| QueueSpec.GrantedStep | gitrank/packages/store/memory.go:235-249 | The leasing scan hands out the next ready job exactly while the quota is unfilled |
| QueueSpec.QuotaReached | gitrank/packages/store/memory.go:235-249 | Stopping the scan at the quota or at the end loses nothing of the first ready jobs |
| QueueEvents.Steps | gitrank/packages/store/memory.go:140-508 | Every operation but a restore keeps each job at its place, makes one lawful transition of it, and adds at most one job, untouched, at the end |
| QueueEvents.LaterExportsOnly | gitrank/packages/store/memory.go:538-563 | When no restore goes back behind a state, every later state stems from it by the events in between |
| QueueInvariants.SoundStep | gitrank/packages/store/memory.go:253-458 | Each transition keeps the job invariant, the identity of the job and its attempt limit, leaves finished jobs alone, and never makes an inactive job active |
| QueueInvariants.JobsStaySound | gitrank/packages/store/memory.go:210-508 | In every reachable state: attempts stay within the limit and reach it exactly at dead_letter, only leased jobs carry a deadline, no job is running or failed |
| QueueInvariants.TerminalForever | gitrank/packages/store/memory.go:617-624 | A finished job is the same in every state that stems from it, through all restores that do not go back behind it |
| QueueInvariants.AtMostOneActive | gitrank/packages/store/memory.go:151-165 | Over every run without plain enqueueing, replays and restores included, at most one active job holds a non-empty dedupe key |
| QueueInvariants.PlainEnqueueUnique | gitrank/packages/store/memory.go:140-149 | Plain enqueueing keeps that exactly when the job is refused or its key is free |
| QueueInvariants.DuplicateIffActive | gitrank/packages/store/memory.go:151-165 | A duplicate is reported exactly when an active job holds the key, that job is returned, and nothing changes |
| QueueInvariants.IdsStayUnique | gitrank/packages/store/memory.go:140-165 | No reachable state holds two jobs with one identifier |
| QueueInvariants.FailureCosts | gitrank/packages/store/memory.go:386-458 | Each accepted failure strictly decreases the attempts left |
| QueueInvariants.FailuresBounded | gitrank/packages/store/memory.go:386-458 | In every run, the failures accepted for a job, those undone by a restore aside, never exceed its attempt count, hence its limit |
| QueueLeases.LeaseReadyExact | gitrank/packages/store/memory.go:210-251 | Exactly the jobs that change are handed out, in queue order, as many as the quota and the ready jobs allow; no ready job is passed over; a short result leaves no ready job |
| QueueLeases.GrantsAreChanges | gitrank/packages/store/memory.go:234-250 | The list handed out is the list of entries the scan changed, and each one occupies a worker |
| QueueLeases.EarlierFirst | gitrank/packages/store/memory.go:235-249 | A ready job is never passed over for a later one |
| QueueLeases.WorkConserving | gitrank/packages/store/memory.go:234-250 | An unfilled quota leaves no ready job behind |
| QueueLeases.WorkerCeiling | gitrank/packages/store/memory.go:216-229 | When every lease is taken under one limit, no reachable state has more leased and running jobs than that |
| QueueLeases.HandedOutWasReady | gitrank/packages/store/memory.go:235-288 | A job handed out was pending and due after reaping, and is leased under its deadline afterwards |
| QueueLeases.HeldUntil | gitrank/packages/store/memory.go:243-247 | Until its deadline, for ever without one, a leased job stays leased under it, or is paused or finished, in every state that stems from the lease without an accepted failure or resume of it |
| QueueLeases.LeaseExclusive | gitrank/packages/store/memory.go:210-288 | Hence it is not handed out a second time before the deadline, and never when it was leased without a time to live; a release that a restore undid does not free it |
| QueueLeases.OlderRestoreFreesLease | gitrank/packages/store/memory.go:554-563 | A restore of an older export does: any due job can be enqueued, exported, leased, restored and leased again at one and the same time |
| QueueRetries.BackoffFitsExactly | gitrank/packages/store/memory.go:416-421 | All delays of a job are the doubling ones exactly when the last of them fits 64 bits |
| QueueRetries.BackoffWrapsRound | gitrank/packages/store/memory.go:416-421 | With a backoff of one second the first 34 delays are exact and the 35th retry is due before its own failure |
| QueueRetries.BackoffVanishes | gitrank/packages/store/memory.go:416-421 | From the 65th failure on every backoff comes out as nought: the job is retried at once |
| QueueRetries.StaysOnSchedule | gitrank/packages/store/memory.go:386-425 | In every state that stems from its first failure, a job is not due, let alone leased, before the backoffs so far have passed |
| QueueRetries.BackoffBound | gitrank/packages/store/memory.go:386-425 | A job of M attempts killed by its failures has been failing for at least b * (2^(M-1) - 1), through all restores that do not go back behind its first failure |
| QueueRetries.Conservation | gitrank/packages/store/memory.go:386-458 | Over every run: dead jobs and records correspond one to one with all attempts used, the failure counter counts both, and attempts = retries + failures + attempts skipped by immediate burial |
| QueueRetries.BuryStep | gitrank/packages/store/memory.go:407-413 | A burial keeps the correspondence of dead jobs and records |
| QueueRetries.CalmStep | gitrank/packages/store/memory.go:460-508 | So does every step that kills nobody, including the stamping of records by replays |
| Text.CutUnique | gitrank/packages/store/sync_builder.go:342-352 | A string cut at a separator that its first half lacks can be put together in one way only |
| Text.CutLast | gitrank/packages/githubapi/installation_tokens.go:128-130 | The same for a separator that the second half lacks |
| Text.JoinInjective | gitrank/packages/githubapi/installation_tokens.go:132-132 | Joined parts free of the separator can be read back |
| Text.DecInjective | gitrank/packages/store/sync_builder.go:344-344 | Different integers print differently |
| Text.TrimCuts | gitrank/packages/contracts/sync_validation.go:18-18 | Trimming cuts white space off both ends and nothing else |
| Text.CapitalsBecomeSmall | gitrank/packages/contracts/sync_validation.go:59-59 | A capital becomes the small letter at its place in the alphabet, no other ASCII character changes |
| Text.SqueezedAndTrimmed | frontend/lib/presentation/badge-dedup.ts:79-82 | A squeezed and trimmed text is its words with one space between them |
| Requests.NormalizeOptionalSyncUser | gitrank/packages/contracts/sync_validation.go:162-178 | White space and all leading at-signs are dropped, the rest is a lower-case login or an error, and nothing is no user |
| Requests.RepositoryShape | gitrank/packages/contracts/sync_validation.go:28-49 | An accepted repository is one valid owner, one slash and one valid name |
| Requests.NormalizeEstablishes | gitrank/packages/contracts/sync_validation.go:73-160 | What a successful normalisation guarantees, mode by mode, the optional user of repository work included |
| Requests.NormalizeTwice | gitrank/packages/contracts/sync_validation.go:73-160 | A normalised request normalises to itself |
| Requests.AcceptedExactly | gitrank/packages/contracts/sync_validation.go:73-160 | Kind by kind, exactly which requests are accepted, and every field of the accepted request |
| Requests.KindNames | gitrank/packages/contracts/sync_validation.go:83-157 | Exactly which modes belong to which kind |
| Requests.RepositoryAccepted | gitrank/packages/contracts/sync_validation.go:28-49 | An owner and a name around one slash, with or without white space around each, are accepted as owner, slash, name |
| Requests.RepositoryRefused | gitrank/packages/contracts/sync_validation.go:28-49 | Nothing else is accepted |
| Requests.OptionalUserAccepted | gitrank/packages/contracts/sync_validation.go:162-178 | Accepted exactly when blank or a login after at-signs, which it becomes in lower case |
| Requests.LoginPattern | gitrank/packages/contracts/sync_validation.go:11-11 | The character predicate is the pattern: an alphanumeric, or two around up to 37 alphanumerics and hyphens |
| Requests.UUIDPattern | gitrank/packages/contracts/sync_validation.go:14-14 | Five groups of hexadecimal digits with hyphens in between |
| Requests.NamePatterns | gitrank/packages/contracts/sync_validation.go:12-13 | The lengths and characters of repository names and commits |
| Requests.SyncRequest.NormalizeInPlace | gitrank/packages/contracts/sync_validation.go:73-160 | The fields become the normalised request, or the first error is returned and the fields are only trimmed |
| SyncBuilder.BuildSyncJobs | gitrank/packages/store/sync_builder.go:11-317 | One job per valid request, with the type, subject, key and payload of its mode, or the error |
| SyncBuilder.ResourceJob | gitrank/packages/store/sync_builder.go:319-369 | Subject, key and payload for something in a repository; a commit overrides a number |
| SyncBuilder.BuildAnswers | gitrank/packages/store/sync_builder.go:11-369 | A job is built exactly of an accepted request for a named queue with a positive attempt limit; its subject, key, repository, installation and correlation are those of the request |
| SyncBuilder.JobTypeNames | gitrank/packages/store/jobs.go:14-35 | The job types of the modes about installations, logins and repositories |
| SyncBuilder.UserJobTypeNames | gitrank/packages/store/jobs.go:14-35 | The job types of the backfills |
| SyncBuilder.OtherJobTypeNames | gitrank/packages/store/jobs.go:14-35 | The job types of grading, replays, refreshes and leaderboards |
| SyncBuilder.PayloadSays | gitrank/packages/store/sync_builder.go:11-369 | What the payload says about mode and target, kind by kind |
| SyncBuilder.SameKeySameWork | gitrank/packages/store/sync_builder.go:11-369 | Two normalised requests print the same key exactly when mode and target agree, logins up to case |
| SyncBuilder.PayloadCarriesTarget | gitrank/packages/store/sync_builder.go:11-369 | Requests with the same payload have the same mode, target and key: the payload alone tells the worker what to do |
| SyncBuilder.KeyIsPlain | gitrank/packages/store/jobs.go:140-140 | Storing a printed key trims nothing off, so the job carries it unchanged |
| SyncBuilder.BuiltKeys | gitrank/packages/store/sync_builder.go:11-369 | Two requests that build jobs get the same stored key exactly when they ask for the same work |
| WorkIdentity.EverythingIsWork | gitrank/packages/store/memory.go:151-165 | In a run fed by built requests every job and every record, replays included, is work for some request |
| WorkIdentity.WorkHeldOnce | gitrank/packages/store/memory.go:151-165 | Two different active jobs never stand for the same work |
| WorkIdentity.MergedExactlyIntoSameWork | gitrank/packages/store/memory.go:151-165 | A built job is merged exactly into an active job for the same work |
| Circuit.CircuitBreaker.constructor | gitrank/packages/githubapi/circuitbreaker.go:30-46 | Starts closed and valid, with the default limits in place of non-positive ones |
| Circuit.CircuitBreaker.BeforeCall | gitrank/packages/githubapi/circuitbreaker.go:48-70 | Admission and new state, keeping the breaker's invariant |
| Circuit.CircuitBreaker.ReportSuccess | gitrank/packages/githubapi/circuitbreaker.go:72-83 | Closes the breaker from any state, keeping the invariant |
| Circuit.CircuitBreaker.ReportFailure | gitrank/packages/githubapi/circuitbreaker.go:85-105 | Reopens a half-open breaker, counts otherwise, keeping the invariant |
| Circuit.SlotsAccounted | gitrank/packages/githubapi/circuitbreaker.go:48-105 | Over every interleaving: closed exactly below the failure limit, no half-open slot used outside half-open, one to the limit used inside, each by a running probe or one that left silently |
| Circuit.RejectedWhileProbing | gitrank/packages/githubapi/circuitbreaker.go:63-68 | If every call reports, a half-open rejection means a probe is still running |
| Circuit.RejectedWithoutProbe | gitrank/packages/githubapi/client.go:199-201 | In general a half-open breaker rejects with no probe running exactly when all its slots were left silently |
| Circuit.StuckForever | gitrank/packages/githubapi/circuitbreaker.go:48-105 | From a reachable state no call is ever admitted again, whatever happens, exactly when the breaker is half-open, every slot was left silently and nothing is in flight |
| Circuit.StuckIsReachable | gitrank/packages/githubapi/client.go:199-201 | Every breaker, with whatever limits, can get there |
| Circuit.ClosedIffFewFailures | gitrank/packages/githubapi/circuitbreaker.go:72-105 | The breaker is closed, and admits everybody, exactly while fewer failures than the limit were reported since the last success |
| Circuit.OpenUntilInterval | gitrank/packages/githubapi/circuitbreaker.go:56-62 | An open breaker admits a call exactly once an interval has passed since the last reported failure, late ones included |
| Circuit.AdmissionRate | gitrank/packages/githubapi/circuitbreaker.go:48-105 | With no success since it opened, at most the half-open limit per full interval is admitted, whatever late failures come in |
| Circuit.AdmissionRateInWindow | gitrank/packages/githubapi/circuitbreaker.go:48-105 | In any window of time without a success, wherever it begins after the opening, at most the half-open limit per full interval and once more is admitted |
| Client.RESTClient.Do | gitrank/packages/githubapi/client.go:162-205 | At most three attempts; which one ends the loop and what is reported to the breaker, once per admitted call unless a sleep was canceled |
| Client.RESTClient.ObserveCircuitResult | gitrank/packages/githubapi/client.go:207-215 | No status, 429 and 5xx count as failures, any other status as success |
| Client.GraphQLClient.QueryJSON | gitrank/packages/githubapi/client.go:396-456 | The same for GraphQL, where a rate limit inside a successful response is retried |
| Client.GraphQLClient.ObserveCircuitResult | gitrank/packages/githubapi/client.go:458-470 | The same classification |
| Client.EndIsUnique | gitrank/packages/githubapi/client.go:184-204 | Attempts and sleeps determine the end and the report; a call is silent exactly when a sleep of its was canceled |
| Client.CallAmongOthers | gitrank/packages/githubapi/client.go:162-205 | A call among any others is in flight until it reports, its report acts on the breaker as the others left it, and it keeps its slot without reporting exactly when a sleep of it was canceled in the half-open period that admitted it |
| KeyedFold.Meaning | frontend/lib/presentation/badge-dedup.ts:12-36 | One entry per key in order of first appearance, each the merge of exactly the rows with its key |
| KeyedFold.Incremental | frontend/lib/presentation/badge-dedup.ts:12-36 | Merging new rows into a merged result equals merging everything at once |
| KeyedFold.Partition | frontend/lib/presentation/badge-dedup.ts:12-36 | Every row is accounted for by exactly one entry, whose group is exactly the rows with its key |
| Badges.DeduplicateBadgesByName | frontend/lib/presentation/badge-dedup.ts:12-36 | The loop over map and key list computes the keyed fold |
| Badges.PreferenceRanked | frontend/lib/presentation/badge-dedup.ts:38-76 | The lexicographic preference is a strict ranking |
| Badges.PreferenceOrder | frontend/lib/presentation/badge-dedup.ts:38-76 | Unlocked before locked, then the rarer, the further progressed, the later earned, the better evidenced, the higher scored; better in nothing does not win |
| Badges.SameBadge | frontend/lib/presentation/badge-dedup.ts:78-84 | Named badges share a key exactly when their names are made of the same words, case ignored; a nameless one goes by its identifier |
| Badges.SurvivorsAreBest | frontend/lib/presentation/badge-dedup.ts:12-76 | Of each name the first badge to which none is preferred survives |
| Badges.BadgesIncremental | frontend/lib/presentation/badge-dedup.ts:12-36 | Deduplicating in portions is deduplicating at once |
| UniqueStrings.UniqueEvidenceSignals | frontend/lib/presentation/contribution-dedup.ts:48-64 | The ordered union of the trimmed non-blank strings, case ignored |
| UniqueStrings.MergeUniqueStrings | frontend/lib/api/profile-api.ts:709-724 | The ordered union of the trimmed non-blank lines of both lists |
| UniqueStrings.UnionIncremental | frontend/lib/api/profile-api.ts:709-724 | Adding to a union is the union of everything |
| UniqueStrings.UnionMeaning | frontend/lib/presentation/contribution-dedup.ts:48-64 | The union is made of the first value of every key, trimmed and in order, and of nothing else |
| Contributions.DeduplicateContributionsByPullRequest | frontend/lib/presentation/contribution-dedup.ts:3-42 | The loop over the map computes the keyed fold |
| Contributions.SignalsAreUnions | frontend/lib/presentation/contribution-dedup.ts:3-64 | One row per pull request, in order, with the union of the signals of all its rows |
| Contributions.SamePullRequest | frontend/lib/presentation/contribution-dedup.ts:44-46 | Equal keys exactly for equal numbers and repositories written alike up to case |
| Contributions.OneRowPerPullRequest | frontend/lib/presentation/contribution-dedup.ts:3-46 | No two rows about one pull request, every row accounted for, and a group is everything about its pull request |
| Contributions.SummaryCarried | frontend/lib/presentation/contribution-dedup.ts:16-40 | A replacing row keeps its own summary unless it is blank, a kept row keeps its own |
| Contributions.SingleRow | frontend/lib/presentation/contribution-dedup.ts:8-14 | A pull request with one row keeps it |
| Contributions.SurvivorsEarnMost | frontend/lib/presentation/contribution-dedup.ts:16-21 | The surviving row of each pull request is one that earned most, whatever the dates |
| Contributions.SurvivorsAreWorthMost | frontend/lib/presentation/contribution-dedup.ts:16-21 | When the rows of that pull request that earned most have readable dates, it is the first of those merged last |
| Contributions.ContributionsIncremental | frontend/lib/presentation/contribution-dedup.ts:3-42 | Deduplicating in portions is deduplicating at once |
| Skills.DeduplicateSkillNodes | frontend/lib/presentation/skill-normalization.ts:41-63 | The loop over list and index map computes the keyed fold |
| Skills.SameSkill | frontend/lib/presentation/skill-normalization.ts:3-39 | Two skills share a category exactly when its words agree up to spelling |
| Skills.SurvivorsScoreHighest | frontend/lib/presentation/skill-normalization.ts:41-63 | Each category keeps its first highest-scoring node; an optional field missing there comes from the last node that raised the score and has it |
| Skills.SkillsIncremental | frontend/lib/presentation/skill-normalization.ts:41-63 | Deduplicating in portions is deduplicating at once |
| ScoreHistory.CollapseScoreHistoryByPullRequest | frontend/lib/api/profile-api.ts:627-688 | The loop over order and map computes the collapse |
| ScoreHistory.MergeInto | frontend/lib/api/profile-api.ts:651-682 | A later entry replaces the kept one or fills in what it lacks |
| ScoreHistory.CollapseMeaning | frontend/lib/api/profile-api.ts:627-797 | One entry per pull request in order; its event, points and time are those of one entry (a computed score if there is one; for readable dates the first newest), its evidence the strongest of the group, its explanation and its missing evidence the ordered unions of the lines |
| ScoreHistory.SamePullRequest | frontend/lib/api/profile-api.ts:799-801 | Equal keys exactly for equal numbers and equal owners and names up to case |
| ScoreHistory.OwnerAndName | frontend/lib/api/profile-api.ts:1073-1076 | The owner comes before the first slash, the name between it and the next; without a slash the name is repo |
| ScoreHistory.OneEntryPerPullRequest | frontend/lib/api/profile-api.ts:627-688 | No two entries about one pull request, every entry about one accounted for, and a group is everything about its pull request |
| ScoreHistory.ReplacesExactly | frontend/lib/api/profile-api.ts:690-707 | A computed score replaces any other event; within a kind the later entry does, by time if both dates can be read, by text otherwise |
| ScoreHistory.KeptIsFilledIn | frontend/lib/api/profile-api.ts:665-682 | A kept entry takes over the texts it lacks and keeps those it has |
| ScoreHistory.ReplacingIsItself | frontend/lib/api/profile-api.ts:655-662 | A replacing entry keeps its own fields but for lines and evidence |
| ScoreHistory.FirstBestIsNewest | frontend/lib/api/profile-api.ts:690-703 | That entry is the earliest-listed newest computed score, or the earliest-listed newest of all when there is none |
| ScoreHistory.ScoreHistoryIncremental | frontend/lib/api/profile-api.ts:627-688 | Collapsing in portions is collapsing at once |
| Repositories.SummarizeRepositories | frontend/lib/metrics/contribution-metrics.ts:83-112 | The summary is the sorted fold, cut at the limit |
| Repositories.CollectTouches | frontend/lib/metrics/contribution-metrics.ts:87-107 | The loop over the map computes the keyed fold |
| Repositories.EntriesAddUp | frontend/lib/metrics/contribution-metrics.ts:87-107 | Each repository has the number, the points and, for readable dates, the latest date of exactly its own contributions |
| Repositories.EntriesDescribeRows | frontend/lib/metrics/contribution-metrics.ts:87-107 | The same of the contributions themselves: one entry per owner and name, nothing of another repository in it |
| Repositories.NothingLost | frontend/lib/metrics/contribution-metrics.ts:87-107 | Before the cut, counts and points add up to those of all contributions |
| Repositories.SortIsStable | frontend/lib/metrics/contribution-metrics.ts:109-111 | Repositories that rank level keep their order |
| Repositories.TopRepositories | frontend/lib/metrics/contribution-metrics.ts:109-111 | Listed by points, then by contributions, as many as wanted; nothing left out is ahead of anything listed |
| Streaks.SummarizeContributionStreak | frontend/lib/metrics/contribution-metrics.ts:17-81 | The best streak is the longest run of consecutive days, the current one the maximal run ending at the latest day, or nought after a gap |
| Streaks.CollectDays | frontend/lib/metrics/contribution-metrics.ts:23-33 | The set of readable days, and how many of them fall in the current year |
| Streaks.BestRun | frontend/lib/metrics/contribution-metrics.ts:44-56 | The scan over the sorted days finds the longest run |
| Streaks.BackwardRun | frontend/lib/metrics/contribution-metrics.ts:60-64 | The backward cursor stops, having walked the maximal run |
| Streaks.OnlyTheDaysMatter | frontend/lib/metrics/contribution-metrics.ts:17-81 | Order and repetition of rows do not matter |
| Streaks.CurrentWithinBest | frontend/lib/metrics/contribution-metrics.ts:58-80 | The current streak never exceeds the best, and is nought exactly after a gap of more than a day |
| Deliveries.InMemoryDeliveryStore.constructor | gitrank/packages/store/memory.go:24-32 | Empty, with a week for a non-positive time to live |
| Deliveries.InMemoryDeliveryStore.PruneExpired | gitrank/packages/store/memory.go:80-86 | Exactly the expired deliveries go, the others stay as they are |
| Deliveries.InMemoryDeliveryStore.RememberDelivery | gitrank/packages/store/memory.go:34-48 | A known delivery is only marked duplicate, an unknown one is stored |
| Deliveries.InMemoryDeliveryStore.Mark | gitrank/packages/store/memory.go:50-66 | Sets status and error of a stored delivery, without pruning |
| Deliveries.InMemoryDeliveryStore.Lookup | gitrank/packages/store/memory.go:68-78 | The delivery if it has not expired |
| Deliveries.InMemoryDeliveryStore.Snapshot | gitrank/packages/store/memory.go:88-107 | The counts are the sizes of the sets they name |
| Deliveries.RememberAnswers | gitrank/packages/store/memory.go:34-48 | A stored delivery within its time to live is a duplicate, marked as one and otherwise kept; any other is stored as it came |
| Deliveries.MarkAnswers | gitrank/packages/store/memory.go:50-66 | Status and error of one stored delivery, nothing else |
| Deliveries.PruneAnswers | gitrank/packages/store/memory.go:80-86 | Exactly those older than their time to live go |
| Deliveries.AcceptedOnce | gitrank/packages/store/memory.go:34-86 | Until its time to live has passed an accepted delivery is a duplicate every time, and keeps payload and receive time, whatever happens in between |
| Deliveries.AcceptedAgainIffExpired | gitrank/packages/store/memory.go:34-86 | The next time it is remembered it is accepted exactly when its time to live has passed |
| Deliveries.SnapshotAddsUp | gitrank/packages/store/memory.go:88-107 | The status counts of a snapshot add up to its total |
| InstallationTokens.CacheKey | gitrank/packages/githubapi/installation_tokens.go:112-133 | The key is the joined identifier, sorted repositories and sorted permissions of the request |
| InstallationTokens.KeyIdentifiesScope | gitrank/packages/githubapi/installation_tokens.go:112-133 | Under a safe convention about separators in permissions, two requests share a key exactly when they ask for the same installation, repositories and permissions in any order |
| InstallationTokens.SafeExactly | gitrank/packages/githubapi/installation_tokens.go:112-133 | A convention keeps all scopes apart exactly when names hold no bar and, if values may hold an equals sign, names hold none and values no bar |
| InstallationTokens.EqualsCollide | gitrank/packages/githubapi/installation_tokens.go:128-130 | Any equals sign in a name collides with one in a value |
| InstallationTokens.BarInNameCollides | gitrank/packages/githubapi/installation_tokens.go:119-132 | Any name after a number and a bar collides with one more repository |
| InstallationTokens.BarInValueCollides | gitrank/packages/githubapi/installation_tokens.go:128-132 | Any value with a bar and an equals sign after it collides with one more permission |
| InstallationTokens.SortedUnique | gitrank/packages/githubapi/installation_tokens.go:116-118 | There is one ascending list of a collection of identifiers |
| InstallationTokens.InstallationTokenBroker.constructor | gitrank/packages/githubapi/installation_tokens.go:38-50 | Empty cache, five minutes for a non-positive margin |
| InstallationTokens.InstallationTokenBroker.GetToken | gitrank/packages/githubapi/installation_tokens.go:52-88 | A cached token with more than the margin left is returned untouched; otherwise the minted one is stored and returned, or its error |
| InstallationTokens.EveryEntryMinted | gitrank/packages/githubapi/installation_tokens.go:84-86 | Every cache entry was minted earlier under its key |
| InstallationTokens.ServedForItsScope | gitrank/packages/githubapi/installation_tokens.go:52-88 | However checks and mints interleave, under a safe convention a token served was minted for the very scope it is served for and has more than the margin left |
| InstallationTokens.ServedWhileGood | gitrank/packages/githubapi/installation_tokens.go:52-88 | Conversely, a token with more than the margin left is served to every request for its scope until another is minted for it |
| SyncRuns.MetricCount | frontend/lib/sync/sync-run-metrics-policy.ts:21-34 | The largest of the rounded, non-negative metrics named |
| SyncRuns.HasPartialSyncRunMetrics | frontend/lib/sync/sync-run-metrics-policy.ts:36-54 | True exactly when some trouble was counted at least once, or searches ran and found nothing |
| SyncRuns.NormalizeSyncRunRecord | frontend/lib/api/account-api.ts:518-597 | The branches compute the verdict on status, finish time, clock and metrics |
| SyncRuns.Confluent | frontend/lib/api/account-api.ts:518-597 | Normalising at two times is normalising at the later one, even if the clock went back in between |
| SyncRuns.OnlyLatestLookMatters | frontend/lib/api/account-api.ts:518-597 | However often a run is normalised, only the latest time matters |
| SyncRuns.Idempotent | frontend/lib/api/account-api.ts:518-597 | Normalising twice at one time is normalising once |
| SyncRuns.NeverActiveAgain | frontend/lib/sync/sync-run-status-policy.ts:1-37 | A failed or partial run stays so at any time |
| SyncRuns.ShownActive | frontend/lib/api/account-api.ts:540-571 | Exactly which runs are shown as running and which as queued |
| SyncRuns.ShownSettled | frontend/lib/api/account-api.ts:518-581 | Exactly which runs are shown as completed, partial and failed, from finish time, status, clock, type and metrics |
| SyncRuns.ErrorsExactly | frontend/lib/api/account-api.ts:518-597 | Which reason is given for which correction, and only where the run gives none |
| SyncRuns.WindowsMean | frontend/lib/api/account-api.ts:48-49 | How long a run may be active and queued |
| SyncRuns.PaddedToken | frontend/lib/sync/sync-run-status-policy.ts:15-17 | White space around a status does not matter |
| SyncRuns.CountMeans | frontend/lib/sync/sync-run-metrics-policy.ts:56-62 | The largest whole number a metric reaches, nought for none |
| SyncRuns.FinishedIsNotActive | frontend/lib/api/account-api.ts:525-539 | A finished run is never shown as running or queued |
| SyncRuns.ErrorsExplain | frontend/lib/api/account-api.ts:518-597 | An error that says something is kept, a run turned failed or partial says why, nothing else changes |
| AutoSync.DashboardAutoSyncCoordinator.Effect | frontend/components/shared/DashboardAutoSyncCoordinator.tsx:29-94 | Whether a request is made and of which kind, and the new refs and session storage |
| AutoSync.DashboardAutoSyncCoordinator.OnSuccess | frontend/components/shared/DashboardAutoSyncCoordinator.tsx:95-104 | The attempts start again, counted from now |
| AutoSync.DashboardAutoSyncCoordinator.OnError | frontend/components/shared/DashboardAutoSyncCoordinator.tsx:105-117 | When the attempts are used up the session remembers the time of the failure |
| AutoSync.AsksExactly | frontend/components/shared/DashboardAutoSyncCoordinator.tsx:34-85 | Exactly when a sync is asked for, and whether it is a bootstrap |
| AutoSync.AfterAsking | frontend/components/shared/DashboardAutoSyncCoordinator.tsx:86-93 | Asking counts one attempt and stamps mount and session; a bootstrap is remembered |
| AutoSync.AfterNotAsking | frontend/components/shared/DashboardAutoSyncCoordinator.tsx:40-73 | Without asking only the observed state and the count of attempts can change |
| AutoSync.AfterAnswers | frontend/components/shared/DashboardAutoSyncCoordinator.tsx:95-117 | A success starts the count again, a failure stamps the session only when no attempt is left |
| AutoSync.BootstrapOnce | frontend/components/shared/DashboardAutoSyncCoordinator.tsx:50-57 | A session fingerprint bootstraps a user once, over all mounts |
| AutoSync.PlainIsSpaced | frontend/components/shared/DashboardAutoSyncCoordinator.tsx:75-90 | A plain request comes at least one cooldown after every earlier request of the user, from whatever mount |
| AutoSync.MountIsSpaced | frontend/components/shared/DashboardAutoSyncCoordinator.tsx:71-73 | Two requests of one mount are at least one retry interval apart |
| AutoSync.RateBound | frontend/components/shared/DashboardAutoSyncCoordinator.tsx:29-119 | Any window of length T holds at most the fingerprints bootstrapped in it, plus T divided by the cooldown, plus one requests |
| AutoSync.BurstBound | frontend/components/shared/DashboardAutoSyncCoordinator.tsx:63-69 | A mount that keeps failing in one state asks at most the configured number of times before it has waited for the recovery time |

## Left out

- HTTP, JSON encoding, TLS and signatures: an attempt is its status and whether it may be retried; an encoder is a parameter.
- Backoff delays of the API clients, with their headers and jitter: a sleep only completes or is canceled.
- The nil breaker, and errors raised before the breaker is asked (an empty query, an unencodable body).
- PostgreSQL storage: only the in-memory queue and delivery store are modelled.
- The queue's `Snapshot` counters and the copying of payloads on export and restore: values in Dafny cannot be aliased.
- Wrap-around of the queue's counters and saturation of Go durations beyond 292 years; only the backoff product is taken modulo 2^64.
- JobQueue.InMemoryJobQueue.Fail: the time at which a job is due again is an unbounded integer, because Go times do not wrap at that range.
- QueueLeases.LeaseExclusive: promises nothing once a restore goes back behind the lease, because that takes the lease back (`OlderRestoreFreesLease`).
- QueueRetries.BackoffBound: failures must be reported for the leased job with one backoff and no accepted resume in between, because `Fail` accepts any unfinished job and `Resume` makes a job due at once; and no restore goes back behind the first failure, because that takes the failure back.
- SyncBuilder.BuildSyncJobs: the checks for empty fields after a successful normalisation are not written out, because normalisation has refused those requests.
- Requests.SyncRequest.NormalizeInPlace: the texts of the errors are shortened, because nothing depends on them; the order of the checks is the source's.
- Lower-casing beyond ASCII, the Kelvin sign and the dotted capital I; strings are sequences of characters, not of bytes.
- Floating point: points, scores, progress and metrics are reals, a metric may also be not a number; other values that are not numbers are not modelled.
- Calendar arithmetic: a contribution has an integer day, and date keys sort like days, as they do for four-digit years.
- Contributions.SurvivorsAreWorthMost: needs readable dates on the rows that earned most, because an unreadable date compares with nothing and the choice then depends on the order of rows; `SurvivorsEarnMost` holds for all dates.
- ScoreHistory.CollapseMeaning: says nothing about the backfilled category, versions and identifiers of a whole group, which depend on the order of entries (`KeptIsFilledIn` says what one merge does); when a date that matters cannot be read, only that a computed score is kept if there is one.
- InstallationTokens.ServedForItsScope: needs a safe convention about separators in permissions, which plain words meet, because others collide (`SafeExactly`).
- Client.RESTClient.Do: speaks of a call during which nobody else reports, and so does `QueryJSON`; `CallAmongOthers` says what a call does among others.
- The sorting of the list of sync runs.
- Session storage that other code clears or fills with text that is not a number, and server-side rendering.
- React rendering, formatters, label tables, configuration parsing, the scoring formula and the scheduler service.
