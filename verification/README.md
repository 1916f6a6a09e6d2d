# Verified models of MailVault's delivery, queueing and verification core

MailVault receives mail for its users' domains, checks it, stores it, sends mail out, and reports
events to webhooks. This project models the parts of it that are hard to get right, and proves what
they keep over every run, every input and every interleaving:

- **Webhook delivery** (`WebhookDelivery`, `WebhookLaws`, `WebhookHistory`, `WebhookWorker`, `HttpClient`):
  several workers, two bounded channels, the retry processor's private slice and counters updated separately,
  as a state machine whose steps are the channel operations and the mutex sections. Every conservation law is
  the total of some weighting of the places a job can be in; `TotalAfterStep` says once how each step changes
  such a total. The object `AsyncWebhookWorker` and the HTTP client's retry loop are proved to be runs of that
  machine.
- **Webhook metrics** (`MetricsModel`, `MetricsCollector`): the two-level counter index on the heap, refined
  to values, with deep-copied snapshots.
- **Circuit breaker** (`CircuitBreaker`): the breaker's fields as functions of the whole history.
- **Queues, scheduler and email workers** (`JobQueue`, `JobScheduler`, `EmailPool`, `EmailLedger`,
  `EmailWorker`): the array heap of Go's container/heap behind a bounded closable queue, the tick that moves
  due jobs, and the worker pool with its back-off sleeps and rolling average.
- **Sent email** (`SentEmail`): one row per email, sends and resends, with row updates that may be lost.
- **SPF, DMARC and the spam decision** (`SpfRecord`, `Spf`, `SpfReference`, `SpfDeviations`, `SpfVerdicts`,
  `SpfQueries`, `Dmarc`, `SpamDecision`): evaluation over arbitrary include graphs against a reference
  evaluator for RFC 7208, alignment after RFC 7489, and the weighted decision.
- **Domain ownership** (`DomainValidation`): DNS checks and the life of the verification status.
- **Back-off arithmetic** (`Backoff`) in two's-complement 64-bit arithmetic; `Basics`, `Sums` and `Text` hold
  shared helpers.

Time is a number; the network, DNS, the database and the clock are parameters or nondeterministic
choices. A DNS oracle may answer every query differently. Fields named as history (job identities, request
counts, logs) exist only to state the laws. Where the code and what is written about it differ, the model
follows the code; the differences are listed at the end.

Verify with `dafny verify dfyconfig.toml`.

## Model

| member | source | states |
|---|---|---|
| WebhookDelivery.TotalAfterStep | internal/webhook/async_worker.go:160-361 | for any weighting of the places of a job, how each of the thirteen steps of the goroutines changes the total; the single source of all conservation laws below |
| WebhookLaws.ReachableInv | internal/webhook/async_worker.go:160-361 | in every state any interleaving can reach: each job in one place, all five counters exact up to the updates still owed, attempts and requests within budget, channels within capacity |
| WebhookLaws.ExactlyOnePlace | internal/webhook/async_worker.go:160-361 | an accepted job is in exactly one of main channel, retry channel, retry slice, in flight, acknowledged, abandoned; a job never accepted is nowhere |
| WebhookLaws.LedgerStep | internal/webhook/async_worker.go:169-361 | every step keeps the exact value of every counter, outstanding updates included |
| WebhookLaws.QuietCounters | internal/webhook/async_worker.go:206-336 | with no update outstanding QueueSize + PendingRetries is the number of live jobs and TotalProcessed = acknowledged + TotalRetries + TotalAbandoned; each gauge alone is exact if and only if no worker ever received from the retry channel |
| WebhookLaws.GaugeDrifts | internal/webhook/async_worker.go:206-208 | a run after which nothing is queued, QueueSize is -1 and PendingRetries is 1 |
| WebhookLaws.NeverSentAgain | internal/webhook/async_worker.go:213-296 | over any continuation of any run an acknowledged or abandoned job is never received or sent again |
| WebhookLaws.RequestBudget | internal/webhook/async_worker.go:213-275 | with maxRetries >= 1 a job is processed at most maxRetries times and costs at most maxRetries^2 HTTP requests |
| WebhookLaws.PotentialStep | internal/webhook/async_worker.go:299-343 | a sum over live jobs of remaining attempts and place rank drops at every step that is neither an enqueue nor an idle timer step, and is unchanged by the latter |
| WebhookLaws.BoundedWork | internal/webhook/async_worker.go:160-361 | every run has at most (10 max(1, maxRetries) + 3) steps of work per accepted webhook |
| WebhookLaws.StepsAddUp | internal/webhook/async_worker.go:160-361 | every step of a run is an enqueue, idling of the timer, or one of those steps of work |
| WebhookLaws.ChannelsBounded | internal/webhook/async_worker.go:69-81 | neither channel ever holds more than its buffer |
| WebhookHistory.FieldsAreHistory | internal/webhook/async_worker.go:160-229 | over every run each job anywhere carries the time of the Accept step whose ordinal it bears, the number of times it was received, and the number of requests made for it |
| WebhookHistory.FailureDecision | internal/webhook/async_worker.go:251-275 | a failed job goes to the retry channel exactly when it was received fewer than maxRetries times, its Accept step is less than maxRetryAge ago, and there is room; otherwise it is abandoned |
| WebhookHistory.NoEarlyPromotion | internal/webhook/async_worker.go:318-336 | the retry timer promotes no job before the back-off after its latest failure is over |
| WebhookHistory.NeverReceivedAgain | internal/webhook/async_worker.go:191-296 | once a job is acknowledged or abandoned no worker receives it and no request is made for it, in any continuation |
| WebhookHistory.AcknowledgedWasSent | internal/webhook/async_worker.go:228-296 | no job is acknowledged without an HTTP request |
| WebhookHistory.RetryDelayValues | internal/webhook/async_worker.go:364-371 | the back-off is 1, 2, 4, 8, 16 seconds, then 30 up to attempt 34 |
| HttpClient.SendWebhook | internal/webhook/client.go:90-149 | the attempts made are exactly those up to the first success, non-retryable status, last attempt or end of context; which outcome each stop yields; at most maxRetries; the nil dereference happens exactly when maxRetries < 1 |
| WebhookWorker.AsyncWebhookWorker.EnqueueWebhook | internal/webhook/async_worker.go:160-188 | accepted exactly when the main channel has room and the caller's cancellation is not taken instead, then two protocol steps; otherwise nothing changes |
| WebhookWorker.AsyncWebhookWorker.Receive | internal/webhook/async_worker.go:191-210 | the receive from either channel is the corresponding protocol step |
| WebhookWorker.AsyncWebhookWorker.HandleFailure | internal/webhook/async_worker.go:251-361 | retried exactly when attempts and age allow and the retry channel has room, otherwise abandoned; both are protocol runs |
| WebhookWorker.AsyncWebhookWorker.ProcessWebhookJob | internal/webhook/async_worker.go:213-296 | processing a job with the HTTP client's loop is a protocol run that acknowledges exactly on delivery; a request refused before sending is an ordinary failure |
| WebhookWorker.AsyncWebhookWorker.RetryTick | internal/webhook/async_worker.go:318-341 | the loop over the retry slice ends in the state of a whole pass: due jobs that fit promoted in order, the rest kept in order, both gauges moved by the number promoted |
| WebhookWorker.PassPartitions | internal/webhook/async_worker.go:318-341 | a pass loses and duplicates nothing, promotes only due jobs, and promotes min(due, room) of them |
| WebhookWorker.PassIsRun | internal/webhook/async_worker.go:318-341 | a whole pass is a run of protocol steps |
| WebhookWorker.TickIsRun | internal/webhook/async_worker.go:313-341 | the same from the firing of the timer on |
| MetricsModel.TotalsAreSums | internal/webhook/metrics.go:48-119 | after any events each webhook type's attempts, successes, failures, latency and latency count are the sums over its domains, failures also the sum over reasons, averages exact integer quotients |
| MetricsModel.RecordKeepsConsistent | internal/webhook/metrics.go:48-119 | every record call keeps those equalities |
| MetricsModel.CountersAreEventCounts | internal/webhook/metrics.go:48-119 | after any events every counter of a type, each reason included, is the count of its events since its last reset |
| MetricsModel.DomainCountersAreEventCounts | internal/webhook/metrics.go:48-109 | the same for every domain of the type |
| MetricsCollector.WebhookMetrics.RecordEvent | internal/webhook/metrics.go:48-109 | the in-place update of a type and of one of its domain objects is the value-level update |
| MetricsCollector.WebhookMetrics.GetOrCreateDomain | internal/webhook/metrics.go:200-211 | the named domain object, created with zero counters if absent; all other counters unchanged |
| MetricsCollector.WebhookMetrics.Copy | internal/webhook/metrics.go:214-253 | a deep copy, reasons and domains included: equal value, no shared object |
| MetricsCollector.FailureReasons.Copy | internal/webhook/metrics.go:214-239 | the loop over the failure reasons gives a new map with the same counts |
| MetricsCollector.Collector.RecordEvent | internal/webhook/metrics.go:48-119 | any record call changes the index as the value-level model says, and no other type |
| MetricsCollector.Collector.RecordWebhookAttempt | internal/webhook/metrics.go:48-58 | index after an attempt |
| MetricsCollector.Collector.RecordWebhookSuccess | internal/webhook/metrics.go:61-72 | index after a success |
| MetricsCollector.Collector.RecordWebhookFailure | internal/webhook/metrics.go:75-92 | index after a failure, its reason included |
| MetricsCollector.Collector.RecordWebhookDuration | internal/webhook/metrics.go:95-109 | index after a latency sample |
| MetricsCollector.Collector.RecordWebhookRetries | internal/webhook/metrics.go:112-119 | index after a retry count: one less is added, for the first attempt is no retry |
| MetricsCollector.Collector.ResetMetrics | internal/webhook/metrics.go:171-176 | the index is empty |
| MetricsCollector.Collector.ResetWebhookMetrics | internal/webhook/metrics.go:179-184 | exactly the named type is gone |
| MetricsCollector.Collector.GetWebhookMetrics | internal/webhook/metrics.go:122-136 | a snapshot of the current value (empty for an unknown type) that shares no object with the collector |
| MetricsCollector.SnapshotIsStable | internal/webhook/metrics.go:122-184 | a snapshot keeps its value through any later sequence of recordings and resets |
| CircuitBreaker.WebhookConfiguration.RecordSuccess | domain/entities/webhook_config.go:238-270 | whole new state after a success |
| CircuitBreaker.WebhookConfiguration.RecordFailure | domain/entities/webhook_config.go:273-302 | whole new state after a failure |
| CircuitBreaker.WebhookConfiguration.CanAttemptDelivery | domain/entities/webhook_config.go:305-333 | permission and the move to half-open |
| CircuitBreaker.HistoryDeterminesCounters | domain/entities/webhook_config.go:238-333 | over every history and every threshold: consecutive failures are the trailing failures, totals the event counts; Closed exactly when the breaker is off or the trailing failures do not trip it; the opening time is set exactly when not Closed |
| CircuitBreaker.HealthInNumbers | domain/entities/webhook_config.go:254-293 | over every history health is the success rate against 95% and 80%, unknown before the first result |
| CircuitBreaker.AverageInNumbers | domain/entities/webhook_config.go:246-252 | the response time is the integer average of nine tenths past and one tenth latest, and lies between the extremes of the history |
| CircuitBreaker.OpenIsExplained | domain/entities/webhook_config.go:295-326 | every Open or HalfOpen state is explained by a failure that tripped it, its timer is that failure's time, and HalfOpen by the first later check after the timeout |
| CircuitBreaker.ExplainedIsOpen | domain/entities/webhook_config.go:295-326 | conversely a failure that trips a breaker not open, with no success and no late check since, means Open with its time |
| CircuitBreaker.ExplainedIsHalfOpen | domain/entities/webhook_config.go:315-326 | and a late check after it, with only checks since, means HalfOpen |
| CircuitBreaker.NoEarlyAttempt | domain/entities/webhook_config.go:315-327 | while an enabled breaker is open and the timeout has not passed, whatever is recorded short of a success, every check is refused and the timer stands |
| CircuitBreaker.AttemptIsJustified | domain/entities/webhook_config.go:305-333 | a check that passes has a reason in the history |
| CircuitBreaker.Recovery | domain/entities/webhook_config.go:305-326 | over every history the first check after the timeout of an open breaker passes and leaves it half-open |
| CircuitBreaker.HalfOpenDecides | domain/entities/webhook_config.go:265-333 | wherever a history reaches half-open every check passes, one failure reopens with a fresh timer, one success closes and forgets the failures |
| CircuitBreaker.LoaderNeverHalfOpens | internal/webhook/config_loader.go:33-65 | over any mix of loads and recorded results half-open is never reached through the loader; a load selects exactly the enabled, subscribed configurations that are Closed |
| CircuitBreaker.LoadsChangeNothing | internal/webhook/config_loader.go:33-65 | through the loader a breaker is what its recorded results alone make of it |
| CircuitBreaker.OnlySuccessCloses | internal/webhook/config_loader.go:33-65 | an open breaker stays open with the same timer through any loads and failures, timed out or not; only a recorded success gets it out |
| JobQueue.RootIsBest | app/worker/queue.go:36-61 | no job in a heap-ordered slice has a higher priority number than the root, nor the same one and an earlier time |
| JobQueue.UpStep | app/worker/queue.go:102-117 | one sift-up swap moves the only possible violation of heap order to the parent |
| JobQueue.DownStep | app/worker/queue.go:84-92 | one sift-down swap with the better child moves the only possible violation to that child |
| JobQueue.PriorityQueue.Push | app/worker/queue.go:102-117 | refused exactly when closed or full; otherwise the queued multiset gains the job, heap order and accepted = handed out + queued + cleared kept, size within a positive maxSize |
| JobQueue.PriorityQueue.TakeBest | app/worker/queue.go:84-92 | removes one job, of the highest priority number and the earliest among equals |
| JobQueue.PriorityQueue.Pop | app/worker/email_queue.go:97-123 | exactly when it hands out, waits, is cancelled or reports closed, for the draining and for the refusing queue family; what it hands out has the highest priority number and the earliest time among equals |
| JobQueue.PriorityQueue.Clear | app/worker/queue.go:151-155 | empties the queue and accounts for the cleared jobs |
| JobQueue.PriorityQueue.Close | app/worker/queue.go:158-169 | closed from then on, contents kept |
| JobQueue.PriorityQueue.Drain | app/worker/queue.go:120-141 | popping until empty gives all queued jobs with non-increasing priority numbers, and non-decreasing times among equals |
| JobScheduler.Scheduler.ScheduleJob | app/worker/queue.go:309-319 | one entry per job id, the latest wins |
| JobScheduler.Scheduler.CheckScheduledJobs | app/worker/queue.go:355-377 | moves only due jobs, each once, out of the schedule into the queue; exactly min(due, free capacity) of them, all due ones when unlimited, none when closed |
| JobScheduler.CountMoved | app/worker/queue.go:355-377 | what the loop maintains implies that count |
| EmailPool.ReachableInv | app/worker/email_sender_worker.go:205-397 | in every reachable state of the pool: each job in one place, attempts bounded, per-worker counters balanced, averages the fold of the durations |
| EmailPool.JobsInPlaces | app/worker/email_sender_worker.go:193-385 | the jobs whose attempts are bounded are exactly those in the pool's places |
| EmailPool.ExactlyOnePlace | app/worker/email_sender_worker.go:193-385 | a submitted job is in exactly one of queue, worker, back-off sleep, succeeded, permanently failed, dropped on re-push, cleared with the queue |
| EmailPool.NeverRequeuedAfterSuccess | app/worker/email_sender_worker.go:242-247 | over any continuation a job that succeeded is nowhere else |
| EmailPool.AttemptLimit | app/worker/email_sender_worker.go:317-353 | a job is attempted at most max(1, MaxAttempts) times |
| EmailPool.PoolBalance | app/worker/email_sender_worker.go:205-353 | in every reachable state processed = successful + failed + retried + open, per worker and summed; nothing is open between jobs |
| EmailLedger.CountersAreOutcomes | app/worker/email_sender_worker.go:205-353 | in every reachable state the successes counted are the jobs that succeeded, the failures those given up, and what is processed the sends made for all jobs; between jobs the retries are the remaining sends |
| EmailLedger.BackoffInNumbers | app/worker/email_sender_worker.go:356-372 | without overflow a failed job waits the interval doubled per attempt, at most one hour |
| EmailPool.GetPoolStats | app/worker/email_sender_worker.go:474-511 | every reported counter is the sum over the workers, the reported average the integer mean of theirs, with the number of workers, of running ones and of queued jobs |
| EmailPool.RollingAverageError | app/worker/email_sender_worker.go:388-397 | with r durations of sum S the rolling average a satisfies 0 <= S - r a <= r(r-1)/2 |
| EmailPool.RollingAverageBetween | app/worker/email_sender_worker.go:388-397 | it lies between the smallest and the largest duration |
| EmailWorker.EmailSenderWorker.UpdateAverageTime | app/worker/email_sender_worker.go:388-397 | the stored average becomes the rolling average of all durations so far |
| EmailWorker.EmailSenderWorker.ProcessEmailJob | app/worker/email_sender_worker.go:205-247 | whole new counters, balanced again, and the job's fate: delivered, backed off with its retry time, or given up |
| EmailWorker.ProcessIsRun | app/worker/email_sender_worker.go:205-385 | processing one job is a run of pool steps ending in that state |
| EmailWorker.PopForWorker | app/worker/email_queue.go:97-123 | what the heap hands to a worker is an enabled Pop of the pool, of the highest priority number and the earliest scheduled among equals, and the heap then holds the pool's new queue; nothing is handed out exactly when closed or empty |
| EmailWorker.PushForPool | app/worker/email_queue.go:79-94 | a push into the heap succeeds exactly when the pool has room, and then adds the job |
| EmailWorker.NewQueue | app/worker/email_queue.go:68-76 | a new heap is the queue of a new pool |
| EmailWorker.CloseQueue | app/worker/email_queue.go:148-159 | closing the heap closes the pool's queue and keeps its jobs |
| EmailWorker.ClearQueue | app/worker/email_queue.go:140-145 | clearing the heap clears the pool's queue |
| SentEmail.SendsAreBounded | domain/email_sending/usecase.go:30-132 | over every sequence of sends and resends, with any row updates lost: RetryCount is the number of recorded failures, sends exceed max(1, MaxRetries) by at most the lost updates, nothing is sent after a recorded success |
| SentEmail.StoredSendsAreExact | domain/email_sending/usecase.go:30-132 | with all updates stored RetryCount is the number of failed sends, sends are at most max(1, MaxRetries), nothing is sent after a success |
| SentEmail.ResentAfterSuccess | domain/email_sending/usecase.go:93-124 | a successful resend can be followed by another send if and only if its row update was lost |
| SentEmail.LostFirstUpdateIsFinal | domain/email_sending/usecase.go:61-97 | after a first send whose update was lost the row stays Pending and the email is never resent |
| SentEmail.RetryTimeIsSet | gateways/repository/pg/sent_email.go:276-289 | a failed email that may be retried is due exactly from its failure time plus back-off on |
| SentEmail.Email.MarkAsSent | domain/entities/sent_email.go:168-177 | whole new row after a success |
| SentEmail.Email.MarkAsFailed | domain/entities/sent_email.go:187-199 | whole new row after a failure, retry time only if a retry is left |
| SentEmail.Email.CalculateNextRetryTime | domain/entities/sent_email.go:235-246 | the tripling loop; exact if and only if there were at most fifteen failures |
| SentEmail.UseCase.SendEmail | domain/email_sending/usecase.go:30-90 | result, new row and send log on every path, refused requests and failed creation included |
| SentEmail.UseCase.ResendEmail | domain/email_sending/usecase.go:93-132 | result, new row and send log on every path |
| SentEmail.UseCase.ProcessRetryQueue | domain/email_sending/usecase.go:150-167 | one pass sends every selected email that can be read again exactly once, in order, passes over the others, and touches no other row |
| SentEmail.SelectedIff | gateways/repository/pg/sent_email.go:276-289 | which rows a pass may be given: due ones, none twice |
| SpfRecord.ParseSPFRecord | app/smtp/verification/spf.go:143-162 | the parsing loop yields the mechanisms of all fields but the version tag and those taken for modifiers |
| SpfRecord.MechanismRoundTrip | app/smtp/verification/spf.go:165-190 | parsing a printed mechanism gives it back |
| SpfRecord.PrintedModifier | app/smtp/verification/spf.go:150-155 | an explicitly qualified term is skipped as a modifier exactly when it contains '=' |
| SpfRecord.RecordRoundTrip | app/smtp/verification/spf.go:143-190 | parsing a printed record gives back exactly the mechanisms without '=' |
| SpfVerdicts.ReadWord | app/smtp/verification/spf.go:165-190 | a term is read as qualifier, name up to the first colon and value; no qualifier means `+` |
| SpfVerdicts.KeptTerm | app/smtp/verification/spf.go:150-155 | unqualified include, ip4, ip6 and exists terms are kept whatever their value |
| SpfVerdicts.DroppedTerm | app/smtp/verification/spf.go:150-155 | any other unqualified term with '=' in it is dropped |
| Spf.GuardHitIsPermError | app/smtp/verification/spf.go:108-115 | if the depth guard is hit anywhere, the verdict is PermError; evaluation terminates on every include graph |
| Spf.DepthMonotone | app/smtp/verification/spf.go:108-133 | a verdict other than PermError is the same, after the same queries, from every smaller starting depth |
| SpfVerdicts.VerdictOfAll | app/smtp/verification/spf.go:377-390 | the record `v=spf1 <q>all` yields Pass for `+` or none, Fail for `-`, SoftFail for `~`, Neutral for `?`, up to depth 10 |
| SpfVerdicts.VerdictTooDeep | app/smtp/verification/spf.go:108-115 | beyond depth 10 every record yields PermError |
| SpfVerdicts.VerifyOfAll | app/smtp/verification/spf.go:38-105 | the same from the DNS answer on, the parts of a TXT record joined |
| SpfVerdicts.VerifyWithoutRecord | app/smtp/verification/spf.go:38-75 | the verdict without a sender address, a domain, an answer or a record |
| SpfVerdicts.VerdictOfNetwork | app/smtp/verification/spf.go:325-350 | ip4 and ip6 match exactly the senders in the network, /32 and /128 by default |
| SpfVerdicts.VerdictOfAddress | app/smtp/verification/spf.go:270-292 | `a` matches exactly when the sender is among the addresses of the named or current domain |
| SpfVerdicts.VerdictOfMailHosts | app/smtp/verification/spf.go:295-322 | `mx` matches exactly when some mail host's addresses include the sender; failing hosts are skipped |
| SpfVerdicts.VerdictOfExists | app/smtp/verification/spf.go:353-366 | `exists` matches exactly when the expanded name has an answer |
| SpfVerdicts.VerdictOfInclude | app/smtp/verification/spf.go:246-267 | include matches exactly when the included record passes; what each other outcome gives |
| SpfVerdicts.ThenFailText | app/smtp/verification/spf.go:143-190 | the text of a mechanism followed by `-all` is read as those two |
| SpfReference.CodeMeetsReference | app/smtp/verification/spf.go:108-267 | on the plain fragment of record texts (hereditarily: well formed, unambiguous lookups, no directive dropped, no redirect, `+` includes, `?` only last) verdict and queries equal those of a reference evaluator after sections 4.3 to 4.6, 5.2 and 6.1 of RFC 7208, for every DNS oracle |
| SpfDeviations.LeavesAreFragment | app/smtp/verification/spf.go:193-243 | every record of well-formed leaves with `?` only last is in that fragment |
| SpfDeviations.IncludeIsFragment | app/smtp/verification/spf.go:246-267 | and so is one that includes such a record |
| SpfReference.VerifyMeetsReference | app/smtp/verification/spf.go:38-75 | the same for the whole check of a sender's domain, first lookup included |
| SpfReference.SameLookupIff | app/smtp/verification/spf.go:78-105 | code and RFC find the same record, or the same lack of one, if and only if the reply is no name error and has at most one record with the prefix `v=spf1`, of exactly that version |
| SpfReference.SameReadingIff | app/smtp/verification/spf.go:143-162 | the code reads exactly the directives of the RFC if and only if every field it skips is a modifier of the RFC's grammar; otherwise it reads fewer |
| SpfDeviations.MeetsReferenceIff | app/smtp/verification/spf.go:108-267 | for any well-formed record that loses no directive, over plain included ones: the verdicts agree if and only if the first deciding directive is neither a matching include without `+` nor a matching `?` term with a later term that fails or matches otherwise, and, when none decides, a redirect leads the RFC to Neutral; all in terms of the RFC's own matching |
| SpfDeviations.NeutralTailIff | app/smtp/verification/spf.go:117-133 | the code ends Neutral if and only if for the RFC no term fails and none matches but mechanisms qualified by `?` |
| SpfDeviations.NeutralAllThenFail | app/smtp/verification/spf.go:119-127 | the record `?all -all` is Neutral for the RFC and Fail for the code |
| SpfDeviations.NegatedIncludePasses | app/smtp/verification/spf.go:201-205 | a `-include` of a record `+all` is Fail for the RFC and Pass for the code |
| SpfDeviations.UnknownMechanismDeviation | app/smtp/verification/spf.go:222-225 | a directive that names no mechanism of the RFC is PermError for the RFC, and changes nothing for the code |
| SpfDeviations.DroppedDirective | app/smtp/verification/spf.go:150-155 | `-exists:` with '=' in its value is dropped: Fail for the RFC, Neutral for the code |
| SpfDeviations.IncludeOfNothing | app/smtp/verification/spf.go:246-250 | an include of a name that does not exist is permanent for the RFC and TempError for the code |
| SpfDeviations.RedirectIsIgnored | app/smtp/verification/spf.go:150-155 | `redirect=x`, x publishing `+all`, is Pass for the RFC and Neutral for the code |
| SpfReference.NeverNone | app/smtp/verification/spf.go:108-140 | evaluating a record never yields None |
| SpfQueries.QueryBound | app/smtp/verification/spf.go:108-322 | with at most m mechanisms per record and k answers per MX lookup, at most (1+k)(m + m^2 + ... + m^11) DNS queries from depth 0, one more for the whole check |
| SpfQueries.RecordCost | app/smtp/verification/spf.go:246-322 | the same bound level by level, from any depth |
| Dmarc.OrganizationalDomainLower | app/smtp/verification/dmarc.go:169-186 | lowercasing commutes with taking the last two labels |
| Dmarc.AlignedIff | app/smtp/verification/dmarc.go:112-186 | strict alignment is equality, relaxed alignment equality of the last two labels, up to case |
| Dmarc.VerdictOnPath | app/smtp/verification/dmarc.go:36-82 | the verdict without From domain or policy, and the policy and alignments reported with one |
| Dmarc.StrictImpliesRelaxed | app/smtp/verification/dmarc.go:112-175 | strict alignment implies relaxed alignment for all strings |
| Dmarc.SubdomainIsRelaxedAligned | app/smtp/verification/dmarc.go:169-186 | a name of two or more labels is relaxed-aligned with every name below it; the organizational domain is idempotent |
| Dmarc.CheckDKIMAlignment | app/smtp/verification/dmarc.go:135-159 | true exactly when some passing signature is aligned |
| Dmarc.SummariseSignatures | app/smtp/verification/dkim.go:44-64 | all signatures kept, valid exactly when one passed |
| Dmarc.PassIff | app/smtp/verification/dmarc.go:36-201 | with a policy, pass exactly when SPF passed or some passing signature is aligned |
| Dmarc.RelaxingKeepsPass | app/smtp/verification/dmarc.go:112-201 | relaxing a policy never turns a pass into a fail |
| SpamDecision.CollectHits | app/smtp/verification/reputation.go:113-123 | the lists that name the sender, in order, and their number |
| SpamDecision.VerifyReputation | app/smtp/verification/reputation.go:51-97 | the accumulated reputation with its clamped score |
| SpamDecision.ReputationInNumbers | app/smtp/verification/reputation.go:51-250 | standing, lists and score in numbers for any listings and age hints, the consulted lists by name |
| SpamDecision.DetermineAction | app/smtp/verification/verifier.go:132-189 | the accumulated risk decides as the closed form does |
| SpamDecision.SpamAndRejectSets | app/smtp/verification/verifier.go:192-302 | exactly which evidence is spam and which is rejected |
| SpamDecision.AcceptAndTempFail | app/smtp/verification/verifier.go:192-243 | exactly when a message is accepted, deferred or quarantined |
| SpamDecision.RiskInNumbers | app/smtp/verification/verifier.go:132-185 | what each SPF, DKIM, DMARC and content finding adds to the risk |
| SpamDecision.ReputationRiskInNumbers | app/smtp/verification/verifier.go:158-185 | what the sender's standing, score and listings add to the risk |
| SpamDecision.WorseNeverHelps | app/smtp/verification/verifier.go:132-302 | pointwise worse evidence never leaves the spam set or the reject set |
| SpamDecision.WorseCases | app/smtp/verification/verifier.go:132-185 | what counts as worse: the same evidence, and any one finding made graver |
| SpamDecision.MoreListingsAreWorse | app/smtp/verification/reputation.go:51-185 | more listings make every part of the reputation worse |
| SpamDecision.BlacklistedIsSpam | app/smtp/verification/reputation.go:100-138 | a public sender address on one blacklist has risk at least 0.535 and is always quarantined or rejected |
| SpamDecision.BlacklistBoundIsSharp | app/smtp/verification/reputation.go:51-250 | that bound is attained |
| DomainValidation.ValidateMXRecords | domain/validation/dns_service.go:81-165 | valid exactly for a non-empty answer naming every expected server, whatever the case; the missing and the extra servers in order |
| DomainValidation.ValidateTXTRecord | domain/validation/dns_service.go:168-249 | valid exactly when some record is the prefix, an equals sign and the token, up to case |
| DomainValidation.OneTokenPerRecord | domain/validation/dns_service.go:201-249 | one record cannot prove two tokens that differ by more than case |
| DomainValidation.ExtraMembers | domain/validation/dns_service.go:128-141 | the extra hosts are exactly the answered ones that are no expected server up to case |
| DomainValidation.InvStep | domain/validation/usecase.go:47-143 | every database or DNS step, stale whole-row writes included, keeps: Verified only with a passing check of the domain's own token |
| DomainValidation.StepsInTerms | domain/validation/usecase.go:47-143 | what creation, deletion, stale whole-row writes, conclusions and deliveries do to the stored rows |
| DomainValidation.UpdateIsRun | domain/validation/usecase.go:301-341 | a status update is a run of those steps, however far it gets |
| DomainValidation.VerifiedOnlyIfProven | domain/validation/usecase.go:47-143 | in every run a domain is Verified, and an email stored for it, only if some earlier validation of it found every MX host and a record of prefix, equals sign and the domain's own token |
| DomainValidation.ValidationUseCase.UpdateValidationStatus | domain/validation/usecase.go:301-341 | whole new rows when the status write, the re-read or the attempt write fails; the attempt counted and the next one scheduled exactly on success |
| DomainValidation.ValidationUseCase.RunChecks | domain/validation/dns_service.go:223-278 | overall valid exactly when both checks pass |
| DomainValidation.ValidationUseCase.ValidateDomain | domain/validation/usecase.go:47-143 | the result and the status left behind on every path, whichever database write fails |
| DomainValidation.ValidationUseCase.RetryValidation | domain/validation/usecase.go:486-516 | an incomplete reset ends the call, with the status Pending if it was written; result and final status on every path |
| Backoff.CappedDelayExact | app/worker/queue.go:413-428 | the 64-bit delay equals min(base 2^(n-1), cap) if and only if the product does not overflow or its wrapped value still reaches the cap |
| Backoff.CappedDelayMonotone | domain/validation/entities.go:219-235 | without overflow the delay never decreases with the attempt |
| Backoff.FiveMinuteDelays | app/worker/queue.go:413-428 | five-minute base, every attempt decided: exact up to attempt 25 and at thirteen later ones, negative at the others up to 53, zero from 54 on |
| Backoff.FiveMinuteValues | domain/validation/entities.go:219-235 | the same in nanoseconds up to attempt 25: five minutes doubled, then 24 hours |
| Backoff.SentEmailDelayExact | domain/entities/sent_email.go:235-246 | 3^k times five minutes exactly if and only if k <= 15 |
| Backoff.SentEmailDelayValues | domain/entities/sent_email.go:235-246 | 5, 15, 45 and 135 minutes in nanoseconds, 3^k times 300 seconds up to k = 15 |
| Backoff.SentEmailDelayIncreasing | domain/entities/sent_email.go:235-246 | strictly increasing up to k = 15 |

## Left out

- InMemoryQueue and the WorkerManager and Manager types: simpler twins or coordinators of what is modelled.
- Stop, shutdown progress, goroutine fairness and timed wake-up of a waiting Pop: the code does not establish them; a waiting Pop is the outcome PopWaits.
- HTTP handlers, middleware, configuration loading, SMTP and TLS traffic, Postgres and Redis clients: oracles or plain maps here.
- Encryption, password hashing, JWT, HMAC, JSON and base64: foreign libraries.
- DKIM signature checking, DMARC record lookup and content scoring: their results are inputs.
- Floating-point rounding: scores are exact reals, success rates are compared by cross-multiplication.
- Overflow of counters and averages at 64 bits: counters are unbounded; retry delays are modelled with wrap-around.
- Negative response times, latencies and durations: all are natural numbers here.
- Timestamps that nothing depends on: LastUpdated, LastSuccess and LastFailure of the metrics, LastUsedAt of a configuration, the time and error text of a domain's last attempt; one clock reading per call stands for several.
- Retry time of webhook jobs: workers receive straight from the retry channel (internal/webhook/async_worker.go:206), so nothing is claimed about NextRetryAt being respected.
- Unbuffered channels: a buffer size of 0 is seen as one slot.
- SPF error texts, the Mechanism field, extraction of the sender's domain from an address: not modelled; CIDR parsing and macro expansion are oracles.
- Leaf mechanisms of SPF (a, mx, ip4, ip6, exists): code and reference share one definition of whether they match (SpfVerdicts states it against the DNS answers), the splitting of a record at white space, and the cutting of a directive at its qualifier and first colon. Record selection, the split into directives and modifiers, syntax checks, include, redirect and the order of evaluation are the reference's own.
- The RFC's ptr mechanism, CIDR lengths on a and mx, and mechanism names in upper case: the reference does not interpret them and counts them as syntax errors, so the agreement theorems, which ask for well-formed records, do not cover records that use them. Macros in the targets of include, a, mx and redirect are taken literally by both sides.
- The RFC's limits on the number of lookups: not modelled; code and reference share the depth limit.
- SpfDeviations.MeetsReferenceIff: speaks of the top record in full generality and of included ones on the plain fragment, because a deviation below an include may or may not surface; a record that loses a directive asks the DNS other questions, so it is covered by SameReadingIff and DroppedDirective instead.
- WebhookWorker.AsyncWebhookWorker.ProcessWebhookJob: requires maxRetries >= 1 for a well-formed request, because below that the client dereferences a nil response (internal/webhook/client.go:144).
- SentEmail.UseCase.ProcessRetryQueue: the selected rows are distinct and due, as the database query promises; concurrent resends of one email are not modelled.
- TXT comparison: the code compares the token record without regard to case (domain/validation/dns_service.go:201-209), the model follows it.
- SPF alignment in DMARC: the code takes the return path from the From header (app/smtp/verification/dmarc.go:162-166), so an SPF pass is always aligned; the model follows it.
- The sequence-based channels, slices and heap are fields of type `seq` reassigned by methods; aliasing of job pointers between the queue and a sleeping goroutine is not captured.
