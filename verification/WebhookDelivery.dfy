/** The asynchronous webhook worker as a protocol: every channel operation and every counter update
    under the mutex is one atomic step, and steps of all goroutines interleave freely. */
module WebhookDelivery {
  import opened Basics
  import opened Sums
  import opened Backoff

  /** A webhook job. `id` and `requests` are history: the order of acceptance and the number of HTTP
      requests made so far on behalf of the job. */
  datatype Job = Job(
    id: nat, createdAt: int, attempts: nat, maxRetries: int, nextRetryAt: int, requests: nat)

  /** Where one worker goroutine stands in `runWorker` / `processWebhookJob`. */
  datatype Worker =
    | Idle
    | Sending(job: Job)   // received, attempt counted, HTTP client running
    | Failed(job: Job)    // processed and counted; retry decision still to come
    | OwesRetry           // job is in the retry channel; retry counters not yet updated
    | OwesAbandon         // job given up; TotalAbandoned not yet updated

  /** Where the retry processor stands. */
  datatype Tick =
    | NoTick
    | Scanning(now: int)       // inside the loop over `retryJobs`
    | OwesPromotion(now: int)  // job is in the main channel; counters not yet updated

  datatype Stats = Stats(
    queueSize: int, pendingRetries: int, totalProcessed: int, totalRetries: int, totalAbandoned: int)

  datatype Config = Config(bufferSize: nat, maxRetries: int, maxRetryAge: int)

  /** `kept` is the slice `remaining` of the pass in progress; `retryJobs` is what the pass has not
      reached yet. `acked`, `abandoned`, `accepted` and `taken` are history: the finished jobs, the
      number of accepted jobs, and how many jobs workers received from the retry channel. */
  datatype State = State(
    main: seq<Job>, retry: seq<Job>, retryJobs: seq<Job>, kept: seq<Job>, tick: Tick,
    workers: seq<Worker>, owedAccepts: nat, stats: Stats,
    acked: seq<Job>, abandoned: seq<Job>, accepted: nat, taken: nat)

  datatype Step =
    | Accept(now: int)                             // EnqueueWebhook: channel send
    | CountAccept                                  // EnqueueWebhook: QueueSize++
    | TakeMain(w: nat)                             // worker receive, main channel
    | TakeRetry(w: nat)                            // worker receive, retry channel
    | Finish(w: nat, ok: bool, requests: nat)      // SendWebhook returns; QueueSize--, TotalProcessed++
    | Resolve(w: nat, now: int)                    // after a failure: retry channel or give up
    | CountRetry(w: nat)                           // PendingRetries++, TotalRetries++
    | CountAbandon(w: nat)                         // TotalAbandoned++
    | Collect                                      // processor receive, retry channel
    | StartTick(now: int)                          // timer fires
    | Scan                                         // one iteration over `retryJobs`
    | CountPromotion                               // PendingRetries--, QueueSize++
    | EndTick                                      // retryJobs = remaining

  /** An unbuffered channel hands over directly; it is seen as a one-slot buffer. */
  function Slots(c: Config): nat { if c.bufferSize == 0 then 1 else c.bufferSize }

  function NewJob(c: Config, s: State, now: int): Job {
    Job(s.accepted, now, 0, c.maxRetries, 0, 0)
  }

  function Begun(job: Job): Job { job.(attempts := job.attempts + 1) }

  function Sent(job: Job, requests: nat): Job { job.(requests := job.requests + requests) }

  /** `calculateRetryDelay`: 1s, 2s, 4s, ... capped at 30s. */
  function RetryDelay(attempts: int): int { CappedDelay(SECOND, attempts, 30 * SECOND) }

  function Rescheduled(job: Job, now: int): Job { job.(nextRetryAt := now + RetryDelay(job.attempts)) }

  predicate Retryable(c: Config, job: Job, now: int) {
    job.attempts < job.maxRetries && now - job.createdAt < c.maxRetryAge
  }

  /** The scan promotes the head of `retryJobs` exactly when it is due and the main channel has room. */
  predicate Promotes(c: Config, s: State)
    requires s.tick.Scanning? && s.retryJobs != []
  {
    s.retryJobs[0].nextRetryAt <= s.tick.now && |s.main| < Slots(c)
  }

  predicate Enabled(c: Config, s: State, step: Step) {
    match step
    case Accept(_) => |s.main| < Slots(c)
    case CountAccept => s.owedAccepts > 0
    case TakeMain(w) => w < |s.workers| && s.workers[w].Idle? && s.main != []
    case TakeRetry(w) => w < |s.workers| && s.workers[w].Idle? && s.retry != []
    case Finish(w, ok, requests) =>
      w < |s.workers| && s.workers[w].Sending? && requests <= Max(0, c.maxRetries) && (ok ==> requests > 0)
    case Resolve(w, _) => w < |s.workers| && s.workers[w].Failed?
    case CountRetry(w) => w < |s.workers| && s.workers[w].OwesRetry?
    case CountAbandon(w) => w < |s.workers| && s.workers[w].OwesAbandon?
    case Collect => s.tick.NoTick? && s.retry != []
    case StartTick(_) => s.tick.NoTick?
    case Scan => s.tick.Scanning? && s.retryJobs != []
    case CountPromotion => s.tick.OwesPromotion?
    case EndTick => s.tick.Scanning? && s.retryJobs == []
  }

  function SetWorker(s: State, w: nat, x: Worker): State
    requires w < |s.workers|
  {
    s.(workers := s.workers[w := x])
  }

  function Next(c: Config, s: State, step: Step): State
    requires Enabled(c, s, step)
  {
    var st := s.stats;
    match step
    case Accept(now) =>
      s.(main := s.main + [NewJob(c, s, now)], accepted := s.accepted + 1, owedAccepts := s.owedAccepts + 1)
    case CountAccept =>
      s.(owedAccepts := s.owedAccepts - 1, stats := st.(queueSize := st.queueSize + 1))
    case TakeMain(w) =>
      SetWorker(s, w, Sending(Begun(s.main[0]))).(main := s.main[1..])
    case TakeRetry(w) =>
      SetWorker(s, w, Sending(Begun(s.retry[0]))).(retry := s.retry[1..], taken := s.taken + 1)
    case Finish(w, ok, requests) =>
      var job := Sent(s.workers[w].job, requests);
      var s1 := s.(stats := st.(queueSize := st.queueSize - 1, totalProcessed := st.totalProcessed + 1));
      if ok then SetWorker(s1, w, Idle).(acked := s.acked + [job]) else SetWorker(s1, w, Failed(job))
    case Resolve(w, now) =>
      var job := s.workers[w].job;
      if Retryable(c, job, now) && |s.retry| < Slots(c) then
        SetWorker(s, w, OwesRetry).(retry := s.retry + [Rescheduled(job, now)])
      else
        SetWorker(s, w, OwesAbandon).(abandoned := s.abandoned + [job])
    case CountRetry(w) =>
      SetWorker(s, w, Idle).(stats := st.(pendingRetries := st.pendingRetries + 1, totalRetries := st.totalRetries + 1))
    case CountAbandon(w) =>
      SetWorker(s, w, Idle).(stats := st.(totalAbandoned := st.totalAbandoned + 1))
    case Collect =>
      s.(retry := s.retry[1..], retryJobs := s.retryJobs + [s.retry[0]])
    case StartTick(now) => s.(tick := Scanning(now))
    case Scan =>
      if Promotes(c, s) then
        s.(main := s.main + [s.retryJobs[0]], retryJobs := s.retryJobs[1..], tick := OwesPromotion(s.tick.now))
      else
        s.(kept := s.kept + [s.retryJobs[0]], retryJobs := s.retryJobs[1..])
    case CountPromotion =>
      s.(tick := Scanning(s.tick.now),
         stats := st.(pendingRetries := st.pendingRetries - 1, queueSize := st.queueSize + 1))
    case EndTick => s.(retryJobs := s.kept, kept := [], tick := NoTick)
  }

  function Init(workerCount: nat): State {
    State([], [], [], [], NoTick, seq(workerCount, _ => Idle), 0, Stats(0, 0, 0, 0, 0), [], [], 0, 0)
  }

  predicate IsRun(c: Config, s: State, steps: seq<Step>)
    decreases |steps|
  {
    steps == [] || (Enabled(c, s, steps[0]) && IsRun(c, Next(c, s, steps[0]), steps[1..]))
  }

  function Run(c: Config, s: State, steps: seq<Step>): State
    requires IsRun(c, s, steps)
    decreases |steps|
  {
    if steps == [] then s else Run(c, Next(c, s, steps[0]), steps[1..])
  }

  /** The states any interleaving can reach from a freshly started worker. */
  ghost predicate Reachable(c: Config, s: State) {
    exists workerCount: nat, steps ::
      IsRun(c, Init(workerCount), steps) && s == Run(c, Init(workerCount), steps)
  }

  lemma {:induction false} RunExtends(c: Config, s: State, steps: seq<Step>, step: Step)
    requires IsRun(c, s, steps) && Enabled(c, Run(c, s, steps), step)
    ensures IsRun(c, s, steps + [step])
    ensures Run(c, s, steps + [step]) == Next(c, Run(c, s, steps), step)
    decreases |steps|
  {
    if steps == [] {
      assert [step][1..] == [] && steps + [step] == [step];
    } else {
      assert (steps + [step])[1..] == steps[1..] + [step];
      RunExtends(c, Next(c, s, steps[0]), steps[1..], step);
    }
  }

  lemma {:induction false} RunOne(c: Config, s: State, a: Step)
    requires Enabled(c, s, a)
    ensures IsRun(c, s, [a]) && Run(c, s, [a]) == Next(c, s, a)
  {
    assert [a][1..] == [];
  }

  lemma {:induction false} RunTwo(c: Config, s: State, a: Step, b: Step)
    requires Enabled(c, s, a) && Enabled(c, Next(c, s, a), b)
    ensures IsRun(c, s, [a, b]) && Run(c, s, [a, b]) == Next(c, Next(c, s, a), b)
  {
    assert [a, b][1..] == [b];
    RunOne(c, Next(c, s, a), b);
  }

  lemma {:induction false} ReachableStep(c: Config, s: State, step: Step)
    requires Reachable(c, s) && Enabled(c, s, step)
    ensures Reachable(c, Next(c, s, step))
  {
    var workerCount: nat, steps :|
      IsRun(c, Init(workerCount), steps) && s == Run(c, Init(workerCount), steps);
    RunExtends(c, Init(workerCount), steps, step);
  }

  lemma {:induction false} ReachableInit(c: Config, workerCount: nat)
    ensures Reachable(c, Init(workerCount))
  {
    assert IsRun(c, Init(workerCount), []) && Run(c, Init(workerCount), []) == Init(workerCount);
  }

  // ---------- One linear functional for every law ----------

  /** A weight for a job in each place it can be. Every conservation law below is the total of some
      weighting; `TotalAfterStep` computes once and for all how a step changes such a total. */
  datatype Weights = Weights(
    main: Job -> int, retry: Job -> int, slice: Job -> int, worker: Worker -> int,
    acked: Job -> int, abandoned: Job -> int)

  function Total(W: Weights, s: State): int {
    Sum(W.main, s.main) + Sum(W.retry, s.retry) + Sum(W.slice, s.retryJobs) + Sum(W.slice, s.kept)
    + Sum(W.worker, s.workers) + Sum(W.acked, s.acked) + Sum(W.abandoned, s.abandoned)
  }

  function Change(W: Weights, c: Config, s: State, step: Step): int
    requires Enabled(c, s, step)
  {
    match step
    case Accept(now) => W.main(NewJob(c, s, now))
    case TakeMain(w) => W.worker(Sending(Begun(s.main[0]))) - W.worker(Idle) - W.main(s.main[0])
    case TakeRetry(w) => W.worker(Sending(Begun(s.retry[0]))) - W.worker(Idle) - W.retry(s.retry[0])
    case Finish(w, ok, requests) =>
      var job := Sent(s.workers[w].job, requests);
      (if ok then W.worker(Idle) + W.acked(job) else W.worker(Failed(job))) - W.worker(s.workers[w])
    case Resolve(w, now) =>
      var job := s.workers[w].job;
      (if Retryable(c, job, now) && |s.retry| < Slots(c)
       then W.worker(OwesRetry) + W.retry(Rescheduled(job, now))
       else W.worker(OwesAbandon) + W.abandoned(job)) - W.worker(Failed(job))
    case CountRetry(w) => W.worker(Idle) - W.worker(OwesRetry)
    case CountAbandon(w) => W.worker(Idle) - W.worker(OwesAbandon)
    case Collect => W.slice(s.retry[0]) - W.retry(s.retry[0])
    case Scan =>
      if Promotes(c, s) then W.main(s.retryJobs[0]) - W.slice(s.retryJobs[0]) else 0
    case _ => 0
  }

  lemma {:induction false} TotalAfterStep(W: Weights, c: Config, s: State, step: Step)
    requires Enabled(c, s, step)
    ensures Total(W, Next(c, s, step)) == Total(W, s) + Change(W, c, s, step)
  {
    match step
    case Accept(now) => SumAppend(W.main, s.main, NewJob(c, s, now));
    case TakeMain(w) => SumUpdate(W.worker, s.workers, w, Sending(Begun(s.main[0])));
    case TakeRetry(w) => SumUpdate(W.worker, s.workers, w, Sending(Begun(s.retry[0])));
    case Finish(w, ok, requests) =>
      var job := Sent(s.workers[w].job, requests);
      SumUpdate(W.worker, s.workers, w, if ok then Idle else Failed(job));
      SumAppend(W.acked, s.acked, job);
    case Resolve(w, now) =>
      var job := s.workers[w].job;
      SumUpdate(W.worker, s.workers, w, OwesRetry);
      SumUpdate(W.worker, s.workers, w, OwesAbandon);
      SumAppend(W.retry, s.retry, Rescheduled(job, now));
      SumAppend(W.abandoned, s.abandoned, job);
    case CountRetry(w) => SumUpdate(W.worker, s.workers, w, Idle);
    case CountAbandon(w) => SumUpdate(W.worker, s.workers, w, Idle);
    case Collect => SumAppend(W.slice, s.retryJobs, s.retry[0]);
    case Scan =>
      SumAppend(W.main, s.main, s.retryJobs[0]);
      SumAppend(W.slice, s.kept, s.retryJobs[0]);
    case _ =>
  }

  lemma {:induction false} TotalOfInit(W: Weights, workerCount: nat)
    requires W.worker(Idle) == 0
    ensures Total(W, Init(workerCount)) == 0
  {
    SumZero(W.worker, Init(workerCount).workers);
  }
}
