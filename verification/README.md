# Marketplace pipeline: a verified model

A Dafny model of the stateful cores of the marketplace pipeline (a service that collects Ozon
catalogue pages, classifies products by price segment with a language model, and files CRM tasks for
the top products), with proofs of what those cores promise over whole runs.

`dafny verify dfyconfig.toml` checks the project.

## What is modelled

| part | files |
|---|---|
| The two sliding-window rate limiters, against one theory of a 60-second window | `SlidingWindow`, `RateLimit`, `RedisSlidingWindow`, `RedisReordering` |
| Idempotent CRM task creation: marker, paged search, file store, protocol, gateway | `IdempotencyPolicy`, `PagedSearch`, `FileStore`, `CrmProtocol`, `AmoCrmGateway` |
| Job submission: the TTL store, one request at a time, and interleaved replicas | `JobIdempotencyStore`, `SubmitJob`, `JobsRoute`, `SubmitReplicas` |
| The life of a job: rows, workers, counters; the SQLite table and its ISO texts | `JobModel`, `WorkerLifecycle`, `Metrics`, `IsoText`, `SqliteJobRepository` |
| The Ozon client's caches, rotation, backoff and throttle; the paging collector | `OzonPool`, `OzonRetry`, `OzonHttpClient`, `OzonCollector` |
| Batched classification, top-five selection, the tasks built from it | `Classifier`, `Selection`, `CrmTaskFactory` |
| Shared values and facts | `Catalog`, `Strings`, `Slices`, `SeqFacts`, `SetFacts`, `Runs`, `Wrappers` |

Objects that the source updates in place are classes whose methods are proved equal to a step of a
specification function; what the source promises is then proved about whole runs of those steps.
Where several processes or replicas share state, the model is a state machine whose events
interleave freely, with crashes.

## Assumptions

- Clock readings are inputs of type `real` that never decrease; prices are `real`.
- SHA-256 is an uninterpreted injective function whose outputs are not empty and hold no `]`.
- A Redis transaction is atomic. How far its timestamp may lag and lead the Redis clock is a parameter.
  Members of the sorted set are fresh (they carry a UUID). `RedisSlidingWindow` has transactions arrive
  in the order of their timestamps; `RedisReordering` drops that assumption.
- A wait lasts at least as long as asked.
- A process that dies takes no more steps, and its file lock is released. A CRM POST is applied
  at most once per call. A call that fails after its POST (an unreadable response, say) is a call
  that dies after that effect.
- Between two `create_task` calls the CRM may reorder its listing, and unmarked tasks may come and go;
  the listing holds still during one search.
- Without credentials the CRM refuses the listing request.
- Each queued job id is dispatched once. Job ids are fresh.

## Where the code falls short of what it is for

Each point is a lemma with a concrete run or input, next to the condition under which the code does
what is promised.

- docs/ARCHITECTURE.md:163 says the idempotency store prevents a duplicate POST. After a crash between the
  POST and the local `put` that rests on the remote marker, and holds exactly when the marker can be read
  back and the task is within the first 1250 listed (`AmoCrmGateway.RetryFindsItsTask`). A title that
  already holds a marker prefix defeats it (`AmoCrmGateway.MarkedTaskIsSentTwice`).
- The Redis limiter keeps 60 seconds less the clock skew, and no wider window, once replicas' transactions
  can overtake each other (`RedisReordering.WindowKeptIsExact`, with the run in
  `RedisReordering.SkewShortensWindow`). Where they arrive in the order of their timestamps, it keeps
  the full window exactly as long as the skew stays within the one second by which the key's expiry
  outlasts it (`RedisSlidingWindow.LimitHoldsExactlyWithinSlack`, `RedisSlidingWindow.TooMuchSkewBreaksLimit`).
- `Idempotency-Key` does not make jobs unique across replicas. A loser that looks between the winner's
  `reserve` and `create` starts a second job (`SubmitReplicas.TwoJobsForOneKey`), and so does one whose
  winner's reservation expires between its own `reserve` and second lookup
  (`SubmitReplicas.UnreservedJobLetsAnotherIn`). These are the only two ways (`SubmitReplicas.JobsForOneKey`).
- The task key does not always tell tasks apart (`IdempotencyPolicy.MultiLineTitlesCollide`). It does for a
  task exactly when its canonical text has only one line break that parts it into a title and a
  description without outer white space (`IdempotencyPolicy.CollidesExactlyIfSplitTwice`).
- The two limiters do not always decide alike: a call that finds room only because an entry is exactly 60
  seconds old is admitted by the Redis one alone (`RedisSlidingWindow.LimitersDifferAtTheEdge`). They
  decide alike exactly when there is no such call (`RedisSlidingWindow.LimitersAgreeExactly`), for example
  when no two calls arrive exactly 60 seconds apart.
- `collect` has no bound on pages of duplicates (`OzonCollector.EndlessDuplicatesReadOn`). Its loop reads on for
  ever exactly when no number of pages decides the outcome (`OzonCollector.LoopIsEndlessExactlyIfUndecided`);
  `OzonCollector.Collect` requires that some number does.

## Model

| member | source | states |
|---|---|---|
| `SlidingWindow.GreedyIsFeasible` | src/marketplace_pipeline/interfaces/api/middleware/rate_limit.py:40-51 | a limiter that admits whenever fewer than `limit` of its admissions are live lets at most `limit` calls into any 60-second window, wherever the window ends and whichever way its far edge counts |
| `SlidingWindow.GreedyStaysAhead` | src/marketplace_pipeline/interfaces/api/middleware/rate_limit.py:40-51 | for every nondecreasing arrival sequence, every choice of calls that keeps the limit, and every prefix, that rule has admitted at least as many calls as the choice |
| `SlidingWindow.HalfOpenStaysAheadOfClosed` | src/marketplace_pipeline/infrastructure/rate_limit/redis_sliding_window.py:26-39 | dropping an entry that is exactly 60 seconds old never costs an admission, on any prefix, against keeping it |
| `SlidingWindow.EdgesAgreeExactly` | src/marketplace_pipeline/infrastructure/rate_limit/redis_sliding_window.py:27-31 | dropping such entries and keeping them admit the same calls if and only if no call finds room only because entries exactly 60 seconds old do not count |
| `SlidingWindow.EdgesAgreeOffTheMinute` | src/marketplace_pipeline/infrastructure/rate_limit/redis_sliding_window.py:27-31 | in particular when no two calls arrive exactly 60 seconds apart |
| `SlidingWindow.PurgeKeepsTheLive` | src/marketplace_pipeline/interfaces/api/middleware/rate_limit.py:44-45 | an entry is kept while it is at most 60 seconds old in memory, and while it is less than 60 seconds old in Redis, as often as it occurs, and no other is |
| `RateLimit.PrunedRunIsGreedyPerClient` | src/marketplace_pipeline/interfaces/api/middleware/rate_limit.py:40-51 | over every interleaving of clients, the pruned per-client lists give the decisions that the full, never pruned admission logs would give, stand for those logs from the last call on, and hold at most `limit` times |
| `RateLimit.ClientNeverExceedsLimit` | src/marketplace_pipeline/interfaces/api/middleware/rate_limit.py:40-51 | in every run, at most `limit` admitted calls of one client fall in any closed 60 seconds |
| `RateLimit.ClientIsServedOptimally` | src/marketplace_pipeline/interfaces/api/middleware/rate_limit.py:40-51 | no other way of keeping the limit would have admitted more of a client's calls, on any prefix of them, whatever the other clients do |
| `RateLimit.ClientsDoNotInterfere` | src/marketplace_pipeline/interfaces/api/middleware/rate_limit.py:40-51 | two runs in which a client calls at the same times give it the same answers, whoever else calls |
| `RateLimit.RateLimitMiddleware.Allow` | src/marketplace_pipeline/interfaces/api/middleware/rate_limit.py:40-51 | the imperative `_allow`: admits exactly when the limit is off or fewer than `limit` of the client's whole history of admissions are live; leaves every other client's list as it was |
| `RedisReordering.WindowKeptIsExact` | src/marketplace_pipeline/infrastructure/rate_limit/redis_sliding_window.py:26-39 | in every interleaving of transactions, in whatever order they reach Redis, of later removals, key expiry and crashed replicas: at most `limit` admitted calls fall in any half-open window of a width up to 60 seconds if and only if the width is at most 60 seconds less the whole clock skew (lag plus lead), for every limit |
| `RedisReordering.FullWindowNeedsNoSkew` | src/marketplace_pipeline/infrastructure/rate_limit/redis_sliding_window.py:26-39 | so the full 60 seconds are kept if and only if there is no skew at all |
| `RedisReordering.SkewShortensWindow` | src/marketplace_pipeline/infrastructure/rate_limit/redis_sliding_window.py:26-38 | the run behind it: a transaction overtaken by one with a later timestamp, whose purge drops entries the overtaken one should still count; for a limit of one, by way of two denied calls |
| `RedisSlidingWindow.LimitHoldsExactlyWithinSlack` | src/marketplace_pipeline/infrastructure/rate_limit/redis_sliding_window.py:26-39 | provided that transactions reach Redis in the order of their timestamps: in every interleaving, at most `limit` admitted calls fall in any half-open 60 seconds, if and only if timestamps lag and lead the Redis clock by no more than one second in total |
| `RedisSlidingWindow.TooMuchSkewBreaksLimit` | src/marketplace_pipeline/infrastructure/rate_limit/redis_sliding_window.py:30-35 | with more skew than that there is a run, in timestamp order, that exceeds the limit, for every limit |
| `RedisSlidingWindow.RunKeepsLimit` | src/marketplace_pipeline/infrastructure/rate_limit/redis_sliding_window.py:26-39 | the invariant behind it, for transactions in timestamp order: within the slack every step keeps the limit and keeps every admitted call that a later transaction must count in the set |
| `RedisSlidingWindow.DenialMeansFull` | src/marketplace_pipeline/infrastructure/rate_limit/redis_sliding_window.py:35-38 | transactions in timestamp order: a call is denied if and only if live admitted calls and live denied calls not yet removed already fill the window |
| `RedisSlidingWindow.ExpiryDropsOnlyTheDead` | src/marketplace_pipeline/infrastructure/rate_limit/redis_sliding_window.py:34 | transactions in timestamp order: when the key's 61 seconds are over, no admitted call in it can be live for any transaction still to come |
| `RedisSlidingWindow.RunAloneIsGreedy` | src/marketplace_pipeline/infrastructure/rate_limit/redis_sliding_window.py:23-39 | run one call at a time, with its removals and expiries, the limiter is the reference limiter with the half-open window |
| `RedisSlidingWindow.RedisStaysAheadOfMemory` | src/marketplace_pipeline/infrastructure/rate_limit/redis_sliding_window.py:23-39 | run one call at a time it admits at least as many calls as the in-memory limiter, on every prefix |
| `RedisSlidingWindow.LimitersAgreeExactly` | src/marketplace_pipeline/infrastructure/rate_limit/redis_sliding_window.py:23-39 | run one call at a time, the Redis and the in-memory limiter decide alike if and only if no call hangs on entries exactly 60 seconds old |
| `RedisSlidingWindow.LimitersAgreeOffTheMinute` | src/marketplace_pipeline/infrastructure/rate_limit/redis_sliding_window.py:23-39 | so they do when no two calls arrive exactly 60 seconds apart |
| `RedisSlidingWindow.LimitersDifferAtTheEdge` | src/marketplace_pipeline/infrastructure/rate_limit/redis_sliding_window.py:27-31 | with a limit of one, a second call exactly 60 seconds after the first is admitted here and denied by the in-memory limiter |
| `RedisSlidingWindow.CallAloneMeans` | src/marketplace_pipeline/infrastructure/rate_limit/redis_sliding_window.py:23-39 | an undisturbed call is let through if and only if fewer than `limit` members of a set that has not expired are live, joins them just then, and sets the expiry to 61 seconds from then |
| `RedisSlidingWindow.RedisSlidingWindowRateLimiter.Transaction` | src/marketplace_pipeline/infrastructure/rate_limit/redis_sliding_window.py:30-35 | the four pipelined commands are one step of the machine above: entries with timestamps from 0 to 60 seconds before go, the member joins, the expiry is 61 seconds on, and the returned count is within the limit exactly when that step admits |
| `RedisSlidingWindow.RedisSlidingWindowRateLimiter.RemoveMember` | src/marketplace_pipeline/infrastructure/rate_limit/redis_sliding_window.py:37 | `zrem` is the removal step of the machine above |
| `RedisSlidingWindow.RedisSlidingWindowRateLimiter.Allow` | src/marketplace_pipeline/infrastructure/rate_limit/redis_sliding_window.py:23-39 | an undisturbed `allow` makes the transaction, and takes a denied member out again; without a limit it admits and touches nothing |
| `Strings.ContainsIfItOccurs` | src/marketplace_pipeline/domain/services/idempotency_policy.py:18 | `marker in text` holds if and only if the marker occurs at some position |
| `Strings.StripDropsSpace` | src/marketplace_pipeline/domain/services/idempotency_policy.py:12 | `strip` drops the white space at both ends and nothing else |
| `Strings.AsciiSpaces` | src/marketplace_pipeline/domain/services/idempotency_policy.py:12-20 | which ASCII characters `strip` and `rstrip` drop |
| `Markers.ExtractReadsFirstMarker` | src/marketplace_pipeline/domain/services/idempotency_policy.py:23-30 | for a key without `]`, extraction yields the key if and only if the first marker prefix of the text begins this key's marker |
| `IdempotencyPolicy.ExtractAfterAppend` | src/marketplace_pipeline/domain/services/idempotency_policy.py:16-30 | extracting from an appended text gives the key back if and only if the text had no marker prefix, or its first prefix already began this key's marker |
| `IdempotencyPolicy.AppendKeepsText` | src/marketplace_pipeline/domain/services/idempotency_policy.py:16-20 | marking keeps the text but for white space at its end: a text that holds the key's marker is unchanged, and any other is followed by a blank line and the marker |
| `IdempotencyPolicy.AppendIsIdempotent` | src/marketplace_pipeline/domain/services/idempotency_policy.py:16-20 | appending the same marker twice equals appending it once, for every text and key |
| `IdempotencyPolicy.KeyIsDigestOfBoth` | src/marketplace_pipeline/domain/services/idempotency_policy.py:11-13 | the key is the digest of the stripped title, a line break, and the stripped description |
| `IdempotencyPolicy.CollidesExactlyIfSplitTwice` | src/marketplace_pipeline/domain/services/idempotency_policy.py:11-13 | some task with another title or description (outer white space aside) has the same key as a given one, if and only if a second line break parts the task's canonical text into a title and a description without outer white space |
| `IdempotencyPolicy.KeyIdentifiesTask` | src/marketplace_pipeline/domain/services/idempotency_policy.py:11-13 | in particular, tasks with one-line titles have the same key if and only if their titles and descriptions agree up to outer white space |
| `IdempotencyPolicy.MultiLineTitlesCollide` | src/marketplace_pipeline/domain/services/idempotency_policy.py:11-13 | two different tasks with one key, one with a line break in its title and one with a line break in its description |
| `PagedSearch.SearchPages` | src/marketplace_pipeline/infrastructure/adapters/crm/amocrm_gateway.py:148-166 | the paged search with its five pages and early exits finds exactly what a linear search of the first 1250 listed tasks finds, and stops asking at the first page that is short or holds a match |
| `PagedSearch.SearchFindsFirst` | src/marketplace_pipeline/infrastructure/adapters/crm/amocrm_gateway.py:160-162 | the linear search it is compared with finds the first match, and finds nothing only if nothing matches |
| `CrmProtocol.AtMostOneTaskPerKey` | src/marketplace_pipeline/infrastructure/adapters/crm/amocrm_gateway.py:40-99 | over every sequence of calls with crashes after any effect, restarts, and reordered listings, at most one task per key is sent and held, and all answers for the key are that task's id, given readable markers and a marked task within the first 1250 listed |
| `CrmProtocol.AnswerMeans` | src/marketplace_pipeline/infrastructure/adapters/crm/amocrm_gateway.py:40-99 | what a call that is not cut short answers (id, title, mocked, reused, key), which task it puts at the head of the listing, and which record it leaves, case by case; it fails exactly when the task is not recorded, nothing is mocked and credentials are missing |
| `CrmProtocol.RetryReusesExactlyIfMarked` | src/marketplace_pipeline/infrastructure/adapters/crm/amocrm_gateway.py:76-99 | after a crash between the remote create and the local `put`, the next call reuses the created task if and only if its marker can be read back and it is within the first 1250 listed; otherwise it sends a second one |
| `AmoCrmGateway.AtMostOneCrmTaskPerTask` | src/marketplace_pipeline/infrastructure/adapters/crm/amocrm_gateway.py:40-146 | the same over sequences of whole `create_task` calls: for tasks whose texts hold no other marker first, at most one CRM task is sent and held for each, and all answers for it are that one's id |
| `AmoCrmGateway.RetryFindsItsTask` | src/marketplace_pipeline/infrastructure/adapters/crm/amocrm_gateway.py:76-146 | the retry after such a crash reuses the task if and only if its title and description hold no other marker first, and it is still within reach |
| `AmoCrmGateway.MarkedTaskIsSentTwice` | src/marketplace_pipeline/infrastructure/adapters/crm/amocrm_gateway.py:40-99 | a concrete task with a marker in its title, which after a crash between create and record is sent a second time |
| `AmoCrmGateway.AmoCrmGateway.FindExisting` | src/marketplace_pipeline/infrastructure/adapters/crm/amocrm_gateway.py:76-99 | local store first; then, unless mocked, the remote search, whose find is recorded before it is returned, and which is an error without credentials |
| `AmoCrmGateway.AmoCrmGateway.CreateKeyed` | src/marketplace_pipeline/infrastructure/adapters/crm/amocrm_gateway.py:40-74 | from the key on, the code over the file store and the CRM is a step of the protocol, for every crash point, and the CRM gets the text given, at the head, exactly when that step posts |
| `AmoCrmGateway.AmoCrmGateway.CreateTask` | src/marketplace_pipeline/infrastructure/adapters/crm/amocrm_gateway.py:40-74 | the whole call, key and marker included, is a step of the protocol that `AtMostOneTaskPerKey` is about; what it posts is the task's title, a blank line and its description, and then the key's marker |
| `FileStore.EveryRunIsLinear` | src/marketplace_pipeline/infrastructure/adapters/crm/file_idempotency_store.py:37-75 | in every interleaving of puts, saves and gets by any number of processes, with crashes at any step, the file is never torn and equals the fold of the renamed puts in rename order, and every read saw a whole prefix of that order that includes every put acknowledged before the read began |
| `FileStore.NoAcknowledgedPutIsLost` | src/marketplace_pipeline/infrastructure/adapters/crm/file_idempotency_store.py:42-49 | whatever happens later, the file holds an acknowledged record or a later put of the same key |
| `FileStore.SaveChangesNothing` | src/marketplace_pipeline/infrastructure/adapters/crm/file_idempotency_store.py:51-60 | no step of `save()` changes the records or the history of puts |
| `FileStore.StepsReplaceFile` | src/marketplace_pipeline/infrastructure/adapters/crm/file_idempotency_store.py:42-60 | undisturbed, the six steps of a write replace the file by the changed records, free the lock, leave no temporary file, and acknowledge exactly a put |
| `FileStore.Disk.AtomicWriteText` | src/marketplace_pipeline/infrastructure/io/atomic.py:7-12 | afterwards the file is the whole new text and no temporary file is left |
| `FileStore.FileIdempotencyStore.Get` | src/marketplace_pipeline/infrastructure/adapters/crm/file_idempotency_store.py:37-40 | answers from what the file holds now, and changes nothing there |
| `FileStore.FileIdempotencyStore.PutRecord` | src/marketplace_pipeline/infrastructure/adapters/crm/file_idempotency_store.py:42-49 | adds its record to what the file held when the lock was taken, not to this process's older copy; does nothing when disabled |
| `FileStore.FileIdempotencyStore.SaveRecords` | src/marketplace_pipeline/infrastructure/adapters/crm/file_idempotency_store.py:51-60 | rewrites the file as it is on disk, so the contents stay the same; does nothing when disabled |
| `JobIdempotencyStore.GetReadsView` | src/marketplace_pipeline/infrastructure/adapters/persistence/memory_job_idempotency_store.py:15-35 | a lookup answers from the live reservations, and its late deletion can be seen by no one at that time or later |
| `JobIdempotencyStore.PurgeKeepsView` | src/marketplace_pipeline/infrastructure/adapters/persistence/memory_job_idempotency_store.py:37-41 | purging can be seen by no one at that time or later |
| `JobIdempotencyStore.ReserveAddsToView` | src/marketplace_pipeline/infrastructure/adapters/persistence/memory_job_idempotency_store.py:19-25 | a reservation succeeds if and only if the key has no live one, and then adds that reservation and nothing else, now and later |
| `JobIdempotencyStore.MemoryJobIdempotencyStore.Get` | src/marketplace_pipeline/infrastructure/adapters/persistence/memory_job_idempotency_store.py:15-35 | the imperative lookup is the step above |
| `JobIdempotencyStore.MemoryJobIdempotencyStore.PurgeExpired` | src/marketplace_pipeline/infrastructure/adapters/persistence/memory_job_idempotency_store.py:37-41 | the loop over the expired keys deletes exactly the expired entries |
| `JobIdempotencyStore.MemoryJobIdempotencyStore.Reserve` | src/marketplace_pipeline/infrastructure/adapters/persistence/memory_job_idempotency_store.py:19-25 | succeeds if and only if no live reservation exists, and the table then looks the same as the old one with the reservation added |
| `SubmitJob.KeyReplaysUntilExpiry` | src/marketplace_pipeline/application/use_cases/pipeline_jobs.py:22-46 | one request at a time: every request under a key is answered with the very job first started under it, as submitted, for as long as that reservation lasts, and two jobs started under one key are more than the TTL apart |
| `SubmitJob.ReplayHasOrigin` | src/marketplace_pipeline/application/use_cases/pipeline_jobs.py:22-46 | every replay answers with the job, as submitted, of an earlier request with the same key that was no replay and whose reservation had not expired |
| `SubmitJob.ExecuteMeans` | src/marketplace_pipeline/application/use_cases/pipeline_jobs.py:22-46 | from any state: a replay answers with the row that the key's entry names and changes no row and no queue, there is none without a key, and any other answer is the request's own job, with its row made and its id queued |
| `SubmitJob.RowsAreTheJobsStarted` | src/marketplace_pipeline/application/use_cases/pipeline_jobs.py:22-39 | the rows created, the ids queued, and the answers that are no replays are the same jobs, in order, each once |
| `SubmitJob.SubmitPipelineJobUseCase.ExecuteRequest` | src/marketplace_pipeline/application/use_cases/pipeline_jobs.py:22-39 | the imperative `execute` over the repository, the store and the queue is the step those runs are made of; a replay is the stored row, anything else creates and queues the request's job |
| `SubmitJob.NotReplaysAreRows` | src/marketplace_pipeline/interfaces/api/routes/jobs.py:82-89 | over every run of submissions, one request at a time, as many answers are no replays as rows were created |
| `JobsRoute.JobsRoute.SubmitJob` | src/marketplace_pipeline/interfaces/api/routes/jobs.py:82-89 | the route counts a submission if and only if the answer is no replay, so the counter of submitted jobs is at all times the number of rows |
| `SubmitReplicas.WinnersAreFarApart` | src/marketplace_pipeline/application/use_cases/pipeline_jobs.py:29-36 | replicas interleaving at every step: two successful reservations of one key are more than the TTL apart |
| `SubmitReplicas.ReservedIdIsCreatedOrComing` | src/marketplace_pipeline/application/use_cases/pipeline_jobs.py:33-38 | a reserved id is in the repository, or its winner stands between `reserve` and `create` |
| `SubmitReplicas.CreatorHasReserved` | src/marketplace_pipeline/application/use_cases/pipeline_jobs.py:29-38 | in every run, no request with a key creates its job without having tried to reserve the key, whatever its first lookup and read came to, and it has the reservation if and only if none was live at that moment |
| `SubmitReplicas.LoserFallsThroughExactlyInGap` | src/marketplace_pipeline/application/use_cases/pipeline_jobs.py:33-38 | a loser that has read a reserved id goes on to create a second job if and only if the winner still stands in that gap, and replays the winner's job if and only if the row is there |
| `SubmitReplicas.LookUpAfterCreateReplays` | src/marketplace_pipeline/application/use_cases/pipeline_jobs.py:30-46 | a lookup made after the winner's create and before expiry leads to the winner's job, whatever the other replicas do before the row is read |
| `SubmitReplicas.ReplaysNameARow` | src/marketplace_pipeline/application/use_cases/pipeline_jobs.py:41-46 | every replay names an existing row, created by a winner of the same key |
| `SubmitReplicas.JobsForOneKey` | src/marketplace_pipeline/application/use_cases/pipeline_jobs.py:22-39 | two jobs under one key are both winners more than the TTL apart, or one of them was created without a reservation by a request whose `reserve` met a live one: one that read for its winner's row before that row was created, if it ever was, or one whose `reserve` failed while a winner's reservation was live and whose second look came after that reservation had expired |
| `SubmitReplicas.TwoJobsForOneKey` | src/marketplace_pipeline/application/use_cases/pipeline_jobs.py:33-38 | a run in which one key gets two jobs at one moment, through the gap |
| `SubmitReplicas.UnreservedJobLetsAnotherIn` | src/marketplace_pipeline/application/use_cases/pipeline_jobs.py:33-38 | a run in which one key gets two jobs at one moment, through an expiry between the loser's two looks |
| `WorkerLifecycle.RowsOnlyMoveForward` | src/marketplace_pipeline/infrastructure/services/pipeline_job_executor.py:31-63 | any number of workers: rows never vanish, move only from pending to running to completed or failed, and never change again; result counts are set exactly on completed rows, the error message exactly on failed ones |
| `WorkerLifecycle.TerminalRowTellsItsStory` | src/marketplace_pipeline/infrastructure/services/pipeline_job_executor.py:31-63 | over every run, a terminal row has the origin it was created with, the time of a start of its own, and exactly the counts, path or message and the time of a finish of its own |
| `WorkerLifecycle.CountersNeverRunAhead` | src/marketplace_pipeline/infrastructure/observability/metrics.py:53-65 | at all times each counter is at most the number of rows it counts |
| `WorkerLifecycle.QuiescentCountersAreExact` | src/marketplace_pipeline/infrastructure/observability/metrics.py:53-65 | when nothing is left to do every row is terminal, each counter equals the number of its rows, and together they are all rows created |
| `WorkerLifecycle.NeverStuck` | src/marketplace_pipeline/infrastructure/services/pipeline_job_runner.py:33-47 | as long as some job is not reported, some worker step can be taken |
| `WorkerLifecycle.WorkersFinish` | src/marketplace_pipeline/infrastructure/services/pipeline_job_executor.py:31-63 | without new rows every worker step, of whichever worker, brings the end one step closer: the workers are done if and only if they have made exactly the steps that were left |
| `WorkerLifecycle.WorkersCanFinish` | src/marketplace_pipeline/infrastructure/services/pipeline_job_runner.py:33-47 | from every reachable state worker steps alone lead to a state in which every job is reported |
| `WorkerLifecycle.FiveStepsAJob` | src/marketplace_pipeline/infrastructure/services/pipeline_job_runner.py:33-47 | no job needs more than five steps |
| `WorkerLifecycle.ExecuteAloneRewritesRow` | src/marketplace_pipeline/infrastructure/services/pipeline_job_executor.py:31-63 | the two updates of an undisturbed execution amount to one rewrite of its row, which then holds the start, the end and the result's own values, one counter, and nothing else |
| `WorkerLifecycle.PipelineJobRunner.Submit` | src/marketplace_pipeline/infrastructure/services/pipeline_job_runner.py:33-35 | creates the row and queues the id once, keeping the invariant of the machine above |
| `WorkerLifecycle.PipelineJobRunner.ExecuteNext` | src/marketplace_pipeline/infrastructure/services/pipeline_job_runner.py:40-47 | a worker taking the oldest job is four steps of the machine above, and keeps its invariant |
| `WorkerLifecycle.ExecutePipelineJob` | src/marketplace_pipeline/infrastructure/services/pipeline_job_executor.py:22-63 | an unknown id changes nothing; otherwise the row ends completed with the result's collected, classified and task counts and its path, or failed with the message and the counts it had, with both times and its origin kept, and exactly one counter goes up |
| `OzonHttpClient.EveryRunKeepsPool` | src/marketplace_pipeline/infrastructure/http/ozon_http.py:208-357 | over any run of calls and closes: warmed proxies have open clients, those have fingerprints; clients opened minus closed are the clients held; with warm-up on, every composer request follows exactly one completed warm-up of its own client; a fingerprint is picked only for a proxy without one |
| `OzonHttpClient.CloseLeavesNothingOpen` | src/marketplace_pipeline/infrastructure/http/ozon_http.py:208-213 | after `close` as many clients have been closed as opened, and all three caches are empty |
| `OzonHttpClient.EveryRunIsInTurn` | src/marketplace_pipeline/infrastructure/http/ozon_http.py:335-340 | over any run of calls and closes, of the attempts so far, numbered from 0, a proxy has carried those whose number modulo the length of the list falls on it, and none was direct |
| `OzonPool.FingerprintIsSticky` | src/marketplace_pipeline/infrastructure/http/ozon_http.py:342-357 | between two picks for one proxy lies a drop of that proxy or a close |
| `OzonHttpClient.FailedCallUsesProxiesEvenly` | src/marketplace_pipeline/infrastructure/http/ozon_http.py:215-266 | a call whose attempts all fail sends `max_retries` of them (at least one) through each proxy for each time it is listed, from any starting index, and none directly |
| `OzonHttpClient.FailedCallWithoutProxies` | src/marketplace_pipeline/infrastructure/http/ozon_http.py:215-266 | without proxies such a call makes `max_retries` direct attempts (at least one) |
| `OzonHttpClient.AntiBotMeansAllFailed` | src/marketplace_pipeline/infrastructure/http/ozon_http.py:215-266 | a call ends in the anti-bot error if and only if no attempt had a result |
| `OzonHttpClient.AttemptEnds` | src/marketplace_pipeline/infrastructure/http/ozon_http.py:226-264 | which replies end the call with the payload, the quota error or another error, and which are retried, on the same client or a new one: an equivalence for each |
| `OzonHttpClient.AttemptDropsExactly` | src/marketplace_pipeline/infrastructure/http/ozon_http.py:250-264 | an attempt drops its proxy's client, warm-up and fingerprint if and only if it failed on an HTTP status or transport error that is retried; else it keeps the client and the fingerprint it found |
| `OzonHttpClient.AttemptTouchesOne` | src/marketplace_pipeline/infrastructure/http/ozon_http.py:226-317 | what is held for the other proxies stays as it was |
| `OzonHttpClient.AfterAttempts` | src/marketplace_pipeline/infrastructure/http/ozon_http.py:219-227 | after k attempts of a call, if it gets that far, the rotation has moved by k and the throttle's clock is the exit of the k-th throttled request |
| `OzonHttpClient.EveryRunIsThrottled` | src/marketplace_pipeline/infrastructure/http/ozon_http.py:319-326 | over a whole run, across calls and closes, the last request leaves the throttle at least as long after any earlier one as all the delays drawn since then add up to |
| `OzonRetry.RetryStopsAtFirstResult` | src/marketplace_pipeline/infrastructure/http/ozon_http.py:219-264 | the loop makes each attempt in the state the ones before left, and stops exactly at the first attempt with a result |
| `OzonRetry.PauseAt` | src/marketplace_pipeline/infrastructure/http/ozon_http.py:220-222 | the pause after the i-th failure is the base doubled i - 1 times, or 60 seconds if that is more |
| `OzonRetry.RotationIsEven` | src/marketplace_pipeline/infrastructure/http/ozon_http.py:335-340 | any `rounds` times `n` consecutive picks from a list of `n` fall on each entry `rounds` times for each time it is listed |
| `OzonRetry.PausesNeverShrink` | src/marketplace_pipeline/infrastructure/http/ozon_http.py:220-222 | backoff sleeps never get shorter and never exceed 60 seconds |
| `OzonRetry.PausesAreBounded` | src/marketplace_pipeline/infrastructure/http/ozon_http.py:220-222 | over A attempts they sum to at most 60(A-1) and at most base(2^(A-1)-1), and to exactly the latter if and only if none was cut to 60 seconds |
| `OzonRetry.DoubledIsPower` | src/marketplace_pipeline/infrastructure/http/ozon_http.py:221 | the uncapped backoff after n failures is the base times the n-th power of two |
| `OzonRetry.ExitIsExact` | src/marketplace_pipeline/infrastructure/http/ozon_http.py:319-326 | a throttled request leaves when the delay since the last exit is over, or at once if it is, plus the lateness of the wait; without a delay it does not count as an exit |
| `OzonRetry.ExitsAreApart` | src/marketplace_pipeline/infrastructure/http/ozon_http.py:319-326 | two throttled requests leave at least as far apart as all the delays drawn between them add up to, however late each wait ends |
| `OzonHttpClient.OzonHttpClient.GetComposerJson` | src/marketplace_pipeline/infrastructure/http/ozon_http.py:215-266 | the imperative call is the retry loop of those runs, with those backoff sleeps, leaves the throttle's clock at the exit of its last attempt, and has used the proxies in turn |
| `OzonHttpClient.OzonHttpClient.FetchOnce` | src/marketplace_pipeline/infrastructure/http/ozon_http.py:268-296 | throttle, client, at most one warm-up, composer request; a failed warm-up marks nothing as warm; errors the loop does not catch leave the call from either request |
| `OzonHttpClient.OzonHttpClient.ThrottleRequest` | src/marketplace_pipeline/infrastructure/http/ozon_http.py:319-326 | waits out what is left of the delay since the last exit, and remembers the exit only when there is a delay |
| `OzonHttpClient.OzonHttpClient.ClientForProxy` | src/marketplace_pipeline/infrastructure/http/ozon_http.py:298-310 | one client per proxy, opened on first use |
| `OzonHttpClient.OzonHttpClient.DropClient` | src/marketplace_pipeline/infrastructure/http/ozon_http.py:312-317 | is the drop above |
| `OzonHttpClient.OzonHttpClient.NextProxy` | src/marketplace_pipeline/infrastructure/http/ozon_http.py:335-340 | the proxy at the index modulo the length of the list, with the index moved by one, and no proxy at all when none is configured |
| `OzonHttpClient.OzonHttpClient.FingerprintForProxy` | src/marketplace_pipeline/infrastructure/http/ozon_http.py:342-357 | a proxy keeps the fingerprint it has, and otherwise gets the pick or, without rotation, the first profile |
| `OzonHttpClient.OzonHttpClient.CloseHeld` | src/marketplace_pipeline/infrastructure/http/ozon_http.py:209-210 | the loop closes every held client |
| `OzonHttpClient.OzonHttpClient.CloseClients` | src/marketplace_pipeline/infrastructure/http/ozon_http.py:208-213 | closes what is held and empties the three caches |
| `OzonCollector.Collect` | src/marketplace_pipeline/infrastructure/adapters/parsers/ozon_collector.py:37-85 | the result is the first `target` items of the order-preserving dedup of the pages read, with distinct ids; no fewer pages would have decided the outcome; exhausted, degraded with its message, and the quota error are told apart exactly by the response after them |
| `OzonCollector.PagesRead` | src/marketplace_pipeline/infrastructure/adapters/parsers/ozon_collector.py:87-103 | pages are counted from 1, and each adds its first `ozon_page_size` products, or nothing when it fails |
| `OzonCollector.ReadPages` | src/marketplace_pipeline/infrastructure/adapters/parsers/ozon_collector.py:45-70 | the page loop stops at the least number of pages that decides the outcome, and its turns are those of the unbounded loop |
| `OzonCollector.AddBatch` | src/marketplace_pipeline/infrastructure/adapters/parsers/ozon_collector.py:62-68 | the inner loop over a page, with its early exit at the target |
| `OzonCollector.AddAllIsDedup` | src/marketplace_pipeline/infrastructure/adapters/parsers/ozon_collector.py:62-68 | skipping ids already seen, page by page, is deduplicating the concatenation of the pages, cut at the target |
| `OzonCollector.DedupKeepsFirsts` | src/marketplace_pipeline/infrastructure/adapters/parsers/ozon_collector.py:62-68 | deduplication keeps exactly the first product of each id, in input order |
| `OzonCollector.DedupIsUnique` | src/marketplace_pipeline/infrastructure/adapters/parsers/ozon_collector.py:62-68 | no id occurs twice in what is kept |
| `OzonCollector.EndsInOneWay` | src/marketplace_pipeline/infrastructure/adapters/parsers/ozon_collector.py:77-85 | for a target that is not negative a run ends in exactly one of target reached, exhausted, degraded |
| `OzonCollector.EndsByFirstBadPage` | src/marketplace_pipeline/infrastructure/adapters/parsers/ozon_collector.py:45-60 | an empty or failing page bounds the pages read |
| `OzonCollector.LoopIsEndlessExactlyIfUndecided` | src/marketplace_pipeline/infrastructure/adapters/parsers/ozon_collector.py:45-70 | the page loop, without any bound on its turns, reads on for ever if and only if no number of pages reaches the target or is followed by an empty or failing page |
| `OzonCollector.LoopEndsAtFirstDecided` | src/marketplace_pipeline/infrastructure/adapters/parsers/ozon_collector.py:45-70 | it makes n turns and no more if and only if n is the least number of pages that does |
| `OzonCollector.EndlessDuplicatesReadOn` | src/marketplace_pipeline/infrastructure/adapters/parsers/ozon_collector.py:45-70 | with a catalogue that shows one product on every page, and a target above one, the loop never ends |
| `Classifier.ParseSegments` | src/marketplace_pipeline/infrastructure/adapters/llm/openai_classifier.py:88-106 | one malformed item spoils the answer, and nothing else does; otherwise exactly the expected ids are labelled, Standard where no item speaks of the id, and else by the last one that does: Economy for the text Эконом, Premium for Премиум, Standard for any other |
| `Classifier.LastMentionDecides` | src/marketplace_pipeline/infrastructure/adapters/llm/openai_classifier.py:95-102 | the last item about an expected id decides its label, by those texts, stripped of outer white space |
| `Classifier.UnmentionedIsUnlabelled` | src/marketplace_pipeline/infrastructure/adapters/llm/openai_classifier.py:95-105 | an id no item speaks of is left to the default |
| `Classifier.ClassifyBatch` | src/marketplace_pipeline/infrastructure/adapters/llm/openai_classifier.py:54-86 | the labels of a batch are exactly for its own ids, from its own answer, or Standard throughout when the answer is no use |
| `Classifier.OnlyBadItemsSpoil` | src/marketplace_pipeline/infrastructure/adapters/llm/openai_classifier.py:95-97 | an answer with a list is unusable if and only if some item is not an object |
| `Classifier.UselessAnswerGivesStandard` | src/marketplace_pipeline/infrastructure/adapters/llm/openai_classifier.py:80-86 | a failed or malformed answer makes exactly its own products Standard, whatever usable part it had |
| `Classifier.Classify` | src/marketplace_pipeline/infrastructure/adapters/llm/openai_classifier.py:35-52 | order and products are preserved for every batch size and with the mock; only size 0 without the mock is an error, and a negative size asks for nothing |
| `Classifier.ClassifiedAsSaid` | src/marketplace_pipeline/infrastructure/adapters/llm/openai_classifier.py:35-52 | carried to the whole call: a product has the segment that the last item about it names, in the answer to the last batch that holds its id |
| `Classifier.ClassifiedStandard` | src/marketplace_pipeline/infrastructure/adapters/llm/openai_classifier.py:35-106 | a failed answer to that batch, one with a malformed item, or one that leaves the product out makes it Standard |
| `Classifier.EveryProductIsDecided` | src/marketplace_pipeline/infrastructure/adapters/llm/openai_classifier.py:42-52 | one of the two always applies: each product has such a batch, and an answer that speaks of it does so a last time |
| `Classifier.MockedByNameOrPrice` | src/marketplace_pipeline/infrastructure/adapters/llm/openai_classifier.py:108-121 | with the mock: the words for cheap before the words for dear before the price bounds of 15000 and 60000, each an equivalence |
| `Classifier.ChunksCover` | src/marketplace_pipeline/infrastructure/adapters/llm/openai_classifier.py:124-126 | the batches make up the products in order, none empty, and all but the last of exactly the size |
| `Classifier.LastBatchDecides` | src/marketplace_pipeline/infrastructure/adapters/llm/openai_classifier.py:42-44 | even with repeated ids, the last batch that holds an id decides its segment |
| `Classifier.ClassifiedIsBatchByBatch` | src/marketplace_pipeline/infrastructure/adapters/llm/openai_classifier.py:42-52 | with distinct ids the result is each batch enriched from its own answer alone |
| `Classifier.BatchingIsInvisible` | src/marketplace_pipeline/infrastructure/adapters/llm/openai_classifier.py:42-52 | when every answer agrees with a judge of single products, the result equals judging one by one, for every batch size |
| `Selection.StableSortIsStable` | src/marketplace_pipeline/domain/services/product_selection_service.py:14-22 | the sort is a sorted permutation of its input with ties in input order, ascending and descending |
| `Selection.StableSortIsUnique` | src/marketplace_pipeline/domain/services/product_selection_service.py:14-22 | it is the only one: any sorted arrangement with ties in input order equals it |
| `Selection.TopIsBest` | src/marketplace_pipeline/domain/services/product_selection_service.py:10-22 | the selection and the rest make up the segment, the selection is full unless the segment is smaller, and nothing left out beats anything selected |
| `Selection.TopPremiumIsDearest` | src/marketplace_pipeline/domain/services/product_selection_service.py:10-15 | only Premium products are selected, from dear to cheap; no Premium product left out costs more than one selected; those at one price are taken in input order; and none is left out unless the selection is full |
| `Selection.TopEconomyIsCheapest` | src/marketplace_pipeline/domain/services/product_selection_service.py:17-22 | the mirror image for Economy products, from cheap to dear |
| `Selection.InSegmentIsThat` | src/marketplace_pipeline/domain/services/product_selection_service.py:14 | exactly the segment's products take part, as often as they occur |
| `Selection.SelectedPricesIgnoreOrder` | src/marketplace_pipeline/domain/services/product_selection_service.py:10-22 | the list of selected prices does not depend on the order of the input |
| `CrmTaskFactory.BuildTasks` | src/marketplace_pipeline/domain/services/crm_task_factory.py:14-33 | the premium task first, then the economy task, each under its title and made from its top five |
| `CrmTaskFactory.PremiumTaskListsDearest` | src/marketplace_pipeline/domain/services/crm_task_factory.py:16-25 | when some product is Premium, the first task lists at most five Premium products from dear to cheap, none left out costs more, and all are listed unless there are more than five |
| `CrmTaskFactory.EconomyTaskListsCheapest` | src/marketplace_pipeline/domain/services/crm_task_factory.py:17-32 | the mirror image for the last task when some product is Economy |
| `CrmTaskFactory.FormatLinesSnoc` | src/marketplace_pipeline/domain/services/crm_task_factory.py:36-39 | the description has the products' lines in order with a line break between each two |
| `CrmTaskFactory.OneTaskPerSegment` | src/marketplace_pipeline/domain/services/crm_task_factory.py:14-33 | there is a task for a segment if and only if some product is in it |
| `CrmTaskFactory.TasksHaveDistinctKeys` | src/marketplace_pipeline/domain/services/crm_task_factory.py:14-33 | two tasks of one run never share a canonical text, nor an idempotency key |
| `IsoText.TextOrderIsTimeOrder` | src/marketplace_pipeline/infrastructure/adapters/persistence/sqlite_job_repository.py:106-118 | for UTC times with four-digit years, byte order of the stored texts is time order in both directions, although zero microseconds drop the fraction |
| `IsoText.BeforeExactlyIfEarlier` | src/marketplace_pipeline/infrastructure/adapters/persistence/sqlite_job_repository.py:109 | the order of calendar fields is the order of the instants they name, leap years included |
| `IsoText.IsoRoundTrip` | src/marketplace_pipeline/infrastructure/adapters/persistence/sqlite_job_repository.py:114-122 | every stored time reads back as itself |
| `IsoText.DateShape` | src/marketplace_pipeline/infrastructure/adapters/persistence/sqlite_job_repository.py:114-122 | stored times begin with year, month and day in four, two and two digits, with `-` between them and `T` after them |
| `IsoText.ClockShape` | src/marketplace_pipeline/infrastructure/adapters/persistence/sqlite_job_repository.py:114-122 | and go on with hour, minute and second, six digits of a second unless they are zero, and the offset `+00:00` |
| `SqliteJobRepository.RowRoundTrip` | src/marketplace_pipeline/infrastructure/adapters/persistence/sqlite_job_repository.py:124-154 | every job reads back from its row as it was |
| `SqliteJobRepository.StatusRoundTrip` | src/marketplace_pipeline/domain/models/pipeline_job.py:10-14 | the four status texts stand for the four states, and no other text for any |
| `SqliteJobRepository.UpdateCommutes` | src/marketplace_pipeline/infrastructure/adapters/persistence/sqlite_job_repository.py:81-104 | setting the columns of a row is updating the job it stands for |
| `SqliteJobRepository.ListRecentIsNewestFirst` | src/marketplace_pipeline/infrastructure/adapters/persistence/sqlite_job_repository.py:106-112 | `ORDER BY created_at DESC LIMIT` over the stored texts shows as many jobs as the limit allows, none twice, each created no earlier than the next, and none left out created later than one shown; and every such list is one it may show |
| `SqliteJobRepository.SqliteJobRepository.Create` | src/marketplace_pipeline/infrastructure/adapters/persistence/sqlite_job_repository.py:59-72 | adds the job, unless its id is taken, which changes nothing |
| `SqliteJobRepository.SqliteJobRepository.Get` | src/marketplace_pipeline/infrastructure/adapters/persistence/sqlite_job_repository.py:74-79 | returns the job as it was stored, or nothing |
| `SqliteJobRepository.SqliteJobRepository.Update` | src/marketplace_pipeline/infrastructure/adapters/persistence/sqlite_job_repository.py:81-104 | changes the eight columns it names in the one row it finds, which a changed copy of that job replaces, and nothing when there is none |

## Left out

- HTTP transport and its retries, Redis, SQLite, Postgres and Celery internals, and Celery redelivery: library behaviour.
- Concurrent `create_task` calls for one key by several processes: lookup and create share no lock, so only crash and restart is claimed.
- Power loss and `fsync`: crashes are those of processes.
- Saving the file store under a new path, and the Redis variant of that store.
- Postgres and Redis versions of the repositories, and Redis-backed counters.
- A failing `repository.create` during submission, and failures in building `Container`, which happen before the executor's `try`.
- The queue's order in the interleaved worker machine: any queued job may be fetched there; `PipelineJobRunner.ExecuteNext` takes the oldest.
- Aliasing between a job object the caller holds and the stored row: the executor's job is a local value written back by `update`.
- A record's creation time, the due date and the responsible user of a CRM task: constants of the call that nothing reads back.
- Widget and JSON extraction, prompts, URL building, price formatting (the `line` parameter of `CrmTaskFactory`), headers, cookies: text plumbing.
- The mock collector: single-branch logic. `str.lower` is a parameter of the mock classifier.
- The choice of a throttle delay and of a random fingerprint: inputs of the model.
- The collector's closing of its HTTP client at the end of a run: `OzonHttpClient.CloseLeavesNothingOpen` covers `close` itself.
- `datetime.fromisoformat` on forms other than those `isoformat` writes for UTC, and times with other offsets.
- The order of rows with equal creation times in `list_recent`: any order is allowed.
- FastAPI routes and dispatch (public paths, headers), authentication, health probes, settings, logging, tracing, the CLI, migrations, the proxy quota check, HTTP and duration metrics: wrappers or single-branch logic.
- Floating-point rounding: clocks and prices are exact.
