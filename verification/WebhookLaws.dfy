/** What every interleaving of the webhook worker's goroutines keeps. */
module WebhookLaws {
  import opened Basics
  import opened Sums
  import Backoff
  import opened WebhookDelivery

  // ---------- Each job is in exactly one place ----------

  function HasId(id: nat): Job -> bool { (j: Job) => j.id == id }

  function Is(id: nat): Job -> int { Flag(HasId(id)) }

  predicate Carries(x: Worker, id: nat) { (x.Sending? || x.Failed?) && x.job.id == id }

  function Carrier(id: nat): Worker -> bool { (x: Worker) => Carries(x, id) }

  function CountOf(id: nat): Weights { Weights(Is(id), Is(id), Is(id), Flag(Carrier(id)), Is(id), Is(id)) }

  ghost predicate EachJobOnce(s: State) {
    forall id: nat :: Total(CountOf(id), s) == if id < s.accepted then 1 else 0
  }

  lemma {:induction false} EachJobOnceStep(c: Config, s: State, step: Step)
    requires Enabled(c, s, step) && EachJobOnce(s)
    ensures EachJobOnce(Next(c, s, step))
  {
    hide Total;
    forall id: nat
      ensures Total(CountOf(id), Next(c, s, step)) == if id < Next(c, s, step).accepted then 1 else 0
    {
      TotalAfterStep(CountOf(id), c, s, step);
    }
  }

  datatype Place = MainQueue | RetryQueue | RetrySlice | InFlight | Acknowledged | Abandoned

  predicate At(s: State, id: nat, p: Place) {
    match p
    case MainQueue => Holds(HasId(id), s.main)
    case RetryQueue => Holds(HasId(id), s.retry)
    case RetrySlice => Holds(HasId(id), s.retryJobs) || Holds(HasId(id), s.kept)
    case InFlight => Holds(Carrier(id), s.workers)
    case Acknowledged => Holds(HasId(id), s.acked)
    case Abandoned => Holds(HasId(id), s.abandoned)
  }

  /** Every accepted job is in one place and in no other; nothing else is anywhere. */
  lemma {:induction false} OnePlace(s: State, id: nat)
    requires EachJobOnce(s)
    ensures id < s.accepted ==> exists p :: At(s, id, p) && forall q :: At(s, id, q) ==> q == p
    ensures id >= s.accepted ==> forall q :: !At(s, id, q)
  {
    assert Total(CountOf(id), s) == if id < s.accepted then 1 else 0;
    FlagSum(HasId(id), s.main);
    FlagSum(HasId(id), s.retry);
    FlagSum(HasId(id), s.retryJobs);
    FlagSum(HasId(id), s.kept);
    FlagSum(HasId(id), s.acked);
    FlagSum(HasId(id), s.abandoned);
    FlagSum(Carrier(id), s.workers);
    if id < s.accepted {
      var p :=
        if At(s, id, MainQueue) then MainQueue
        else if At(s, id, RetryQueue) then RetryQueue
        else if At(s, id, RetrySlice) then RetrySlice
        else if At(s, id, InFlight) then InFlight
        else if At(s, id, Acknowledged) then Acknowledged
        else Abandoned;
      assert At(s, id, p);
    }
  }

  // ---------- The counters ----------

  function One(): Job -> int { (j: Job) => 1 }
  function Zero(): Job -> int { (j: Job) => 0 }

  function QueueWeights(): Weights {
    Weights(One(), Zero(), Zero(), (x: Worker) => if x.Sending? then 1 else 0, Zero(), Zero())
  }

  function PendingWeights(): Weights {
    Weights(Zero(), One(), One(), (x: Worker) => if x.OwesRetry? then -1 else 0, Zero(), Zero())
  }

  function ProcessedWeights(): Weights {
    Weights(Zero(), Zero(), Zero(), (x: Worker) => if x.Idle? || x.Sending? then 0 else 1, One(), Zero())
  }

  function AbandonedWeights(): Weights {
    Weights(Zero(), Zero(), Zero(), (x: Worker) => if x.OwesAbandon? then -1 else 0, Zero(), One())
  }

  function OwedPromotions(s: State): int { if s.tick.OwesPromotion? then 1 else 0 }

  /** The exact value of every counter in every reachable state, updates in progress included. */
  predicate Ledger(s: State) {
    && s.stats.queueSize == Total(QueueWeights(), s) - s.taken - s.owedAccepts - OwedPromotions(s)
    && s.stats.pendingRetries == Total(PendingWeights(), s) + s.taken + OwedPromotions(s)
    && s.stats.totalProcessed == Total(ProcessedWeights(), s) + s.stats.totalRetries + s.stats.totalAbandoned
    && s.stats.totalAbandoned == Total(AbandonedWeights(), s)
  }

  lemma {:induction false} LedgerStep(c: Config, s: State, step: Step)
    requires Enabled(c, s, step) && Ledger(s)
    ensures Ledger(Next(c, s, step))
  {
    hide Total;
    QueueSizeStep(c, s, step);
    PendingRetriesStep(c, s, step);
    TotalProcessedStep(c, s, step);
    TotalAbandonedStep(c, s, step);
  }

  lemma {:induction false} QueueSizeStep(c: Config, s: State, step: Step)
    requires Enabled(c, s, step) && Ledger(s)
    ensures var t := Next(c, s, step);
            t.stats.queueSize == Total(QueueWeights(), t) - t.taken - t.owedAccepts - OwedPromotions(t)
  {
    hide Total;
    TotalAfterStep(QueueWeights(), c, s, step);
  }

  lemma {:induction false} PendingRetriesStep(c: Config, s: State, step: Step)
    requires Enabled(c, s, step) && Ledger(s)
    ensures var t := Next(c, s, step);
            t.stats.pendingRetries == Total(PendingWeights(), t) + t.taken + OwedPromotions(t)
  {
    hide Total;
    TotalAfterStep(PendingWeights(), c, s, step);
  }

  lemma {:induction false} TotalProcessedStep(c: Config, s: State, step: Step)
    requires Enabled(c, s, step) && Ledger(s)
    ensures var t := Next(c, s, step);
            t.stats.totalProcessed == Total(ProcessedWeights(), t) + t.stats.totalRetries + t.stats.totalAbandoned
  {
    hide Total;
    TotalAfterStep(ProcessedWeights(), c, s, step);
  }

  lemma {:induction false} TotalAbandonedStep(c: Config, s: State, step: Step)
    requires Enabled(c, s, step) && Ledger(s)
    ensures Next(c, s, step).stats.totalAbandoned == Total(AbandonedWeights(), Next(c, s, step))
  {
    hide Total;
    TotalAfterStep(AbandonedWeights(), c, s, step);
  }

  // ---------- Attempt and request budgets ----------

  /** The greatest number of times one job is processed. */
  function Limit(c: Config): int { Max(1, c.maxRetries) }

  /** The greatest number of HTTP requests in one processing. */
  function PerAttempt(c: Config): int { Max(0, c.maxRetries) }

  /** `PerAttempt(c)` for each of n processings. */
  function Allowance(c: Config, n: nat): int {
    if n == 0 then 0 else PerAttempt(c) + Allowance(c, n - 1)
  }

  lemma {:induction false} AllowanceIsProduct(c: Config, n: nat)
    ensures Allowance(c, n) == n * PerAttempt(c)
  {
    if n > 0 {
      AllowanceIsProduct(c, n - 1);
      assert n * PerAttempt(c) == (n - 1) * PerAttempt(c) + PerAttempt(c);
    }
  }

  predicate Budget(c: Config, j: Job, spent: nat) {
    j.maxRetries == c.maxRetries && j.requests <= Allowance(c, spent)
  }

  predicate Queued(c: Config, q: seq<Job>) {
    forall i :: 0 <= i < |q| ==> q[i].attempts < Limit(c) && Budget(c, q[i], q[i].attempts)
  }

  predicate Finished(c: Config, q: seq<Job>) {
    forall i :: 0 <= i < |q| ==> 1 <= q[i].attempts <= Limit(c) && Budget(c, q[i], q[i].attempts)
  }

  predicate WorkerOk(c: Config, x: Worker) {
    match x
    case Sending(j) => 1 <= j.attempts <= Limit(c) && Budget(c, j, j.attempts - 1)
    case Failed(j) => 1 <= j.attempts <= Limit(c) && Budget(c, j, j.attempts)
    case _ => true
  }

  predicate QueuesOk(c: Config, s: State) {
    && Queued(c, s.main) && Queued(c, s.retry) && Queued(c, s.retryJobs) && Queued(c, s.kept)
    && Finished(c, s.acked) && Finished(c, s.abandoned)
  }

  predicate WorkersOk(c: Config, s: State) {
    forall w :: 0 <= w < |s.workers| ==> WorkerOk(c, s.workers[w])
  }

  predicate SizesOk(c: Config, s: State) {
    |s.main| <= Slots(c) && |s.retry| <= Slots(c) && (s.tick.NoTick? ==> s.kept == [])
  }

  predicate WithinBudget(c: Config, s: State) { QueuesOk(c, s) && WorkersOk(c, s) && SizesOk(c, s) }

  lemma {:induction false} QueuesStep(c: Config, s: State, step: Step)
    requires Enabled(c, s, step) && QueuesOk(c, s) && WorkersOk(c, s)
    ensures QueuesOk(c, Next(c, s, step))
  {
    hide Queued, Finished, Next;
    ChannelsStep(c, s, step);
    SliceStep(c, s, step);
    FinishedStep(c, s, step);
  }

  lemma {:induction false} ChannelsStep(c: Config, s: State, step: Step)
    requires Enabled(c, s, step) && QueuesOk(c, s) && WorkersOk(c, s)
    ensures Queued(c, Next(c, s, step).main) && Queued(c, Next(c, s, step).retry)
  {
  }

  lemma {:induction false} SliceStep(c: Config, s: State, step: Step)
    requires Enabled(c, s, step) && QueuesOk(c, s)
    ensures Queued(c, Next(c, s, step).retryJobs) && Queued(c, Next(c, s, step).kept)
  {
  }

  lemma {:induction false} FinishedStep(c: Config, s: State, step: Step)
    requires Enabled(c, s, step) && QueuesOk(c, s) && WorkersOk(c, s)
    ensures Finished(c, Next(c, s, step).acked) && Finished(c, Next(c, s, step).abandoned)
  {
  }

  lemma {:induction false} WorkersStep(c: Config, s: State, step: Step)
    requires Enabled(c, s, step) && QueuesOk(c, s) && WorkersOk(c, s)
    ensures WorkersOk(c, Next(c, s, step))
  {
  }

  lemma {:induction false} WithinBudgetStep(c: Config, s: State, step: Step)
    requires Enabled(c, s, step) && WithinBudget(c, s)
    ensures WithinBudget(c, Next(c, s, step))
  {
    hide QueuesOk, WorkersOk;
    QueuesStep(c, s, step);
    WorkersStep(c, s, step);
  }

  // ---------- Every run ----------

  ghost predicate Inv(c: Config, s: State) { EachJobOnce(s) && Ledger(s) && WithinBudget(c, s) }

  lemma {:induction false} EachJobOnceInit(workerCount: nat)
    ensures EachJobOnce(Init(workerCount))
  {
    forall id: nat ensures Total(CountOf(id), Init(workerCount)) == 0 {
      TotalOfInit(CountOf(id), workerCount);
    }
  }

  lemma {:induction false} WithinBudgetInit(c: Config, workerCount: nat)
    ensures WithinBudget(c, Init(workerCount))
  {
  }

  lemma {:induction false} InvInit(c: Config, workerCount: nat)
    ensures Inv(c, Init(workerCount))
  {
    EachJobOnceInit(workerCount);
    WithinBudgetInit(c, workerCount);
    TotalOfInit(QueueWeights(), workerCount);
    TotalOfInit(PendingWeights(), workerCount);
    TotalOfInit(ProcessedWeights(), workerCount);
    TotalOfInit(AbandonedWeights(), workerCount);
  }

  lemma {:induction false} InvStep(c: Config, s: State, step: Step)
    requires Enabled(c, s, step) && Inv(c, s)
    ensures Inv(c, Next(c, s, step))
  {
    EachJobOnceStep(c, s, step);
    LedgerStep(c, s, step);
    WithinBudgetStep(c, s, step);
  }

  lemma {:induction false} InvRun(c: Config, s: State, steps: seq<Step>)
    requires IsRun(c, s, steps) && Inv(c, s)
    ensures Inv(c, Run(c, s, steps))
    decreases |steps|
  {
    if steps != [] {
      InvStep(c, s, steps[0]);
      InvRun(c, Next(c, s, steps[0]), steps[1..]);
    }
  }

  lemma {:induction false} ReachableInv(c: Config, s: State)
    requires Reachable(c, s)
    ensures Inv(c, s)
  {
    var workerCount: nat, steps :|
      IsRun(c, Init(workerCount), steps) && s == Run(c, Init(workerCount), steps);
    InvInit(c, workerCount);
    InvRun(c, Init(workerCount), steps);
  }

  // ---------- Consequences ----------

  /** In every reachable state an accepted job is in one place and in no other. */
  lemma {:induction false} ExactlyOnePlace(c: Config, s: State, id: nat)
    requires Reachable(c, s)
    ensures id < s.accepted ==> exists p :: At(s, id, p) && forall q :: At(s, id, q) ==> q == p
    ensures id >= s.accepted ==> forall q :: !At(s, id, q)
  {
    hide At;
    ReachableInv(c, s);
    OnePlace(s, id);
  }

  /** Neither channel ever holds more than its buffer. */
  lemma {:induction false} ChannelsBounded(c: Config, s: State)
    requires Reachable(c, s)
    ensures |s.main| <= (if c.bufferSize == 0 then 1 else c.bufferSize)
    ensures |s.retry| <= (if c.bufferSize == 0 then 1 else c.bufferSize)
  {
    ReachableInv(c, s);
  }

  function InFlightCount(s: State): int { Sum(QueueWeights().worker, s.workers) }

  function LiveCount(s: State): int {
    |s.main| + |s.retry| + |s.retryJobs| + |s.kept| + InFlightCount(s)
  }

  /** No goroutine has a counter update outstanding. */
  predicate Quiet(s: State) {
    s.owedAccepts == 0 && !s.tick.OwesPromotion?
    && forall w :: 0 <= w < |s.workers| ==> s.workers[w].Idle? || s.workers[w].Sending?
  }

  lemma {:induction false} SumOfOnes(q: seq<Job>)
    ensures Sum(One(), q) == |q|
  {
    if q != [] {
      SumOfOnes(q[1..]);
    }
  }

  lemma {:induction false} QuietTotals(s: State)
    requires Quiet(s)
    ensures Total(QueueWeights(), s) == |s.main| + InFlightCount(s)
    ensures Total(PendingWeights(), s) == |s.retry| + |s.retryJobs| + |s.kept|
    ensures Total(ProcessedWeights(), s) == |s.acked|
    ensures Total(AbandonedWeights(), s) == |s.abandoned|
  {
    SumOfOnes(s.main);
    SumOfOnes(s.retry);
    SumOfOnes(s.retryJobs);
    SumOfOnes(s.kept);
    SumOfOnes(s.acked);
    SumOfOnes(s.abandoned);
    SumZero(Zero(), s.main);
    SumZero(Zero(), s.retry);
    SumZero(Zero(), s.retryJobs);
    SumZero(Zero(), s.kept);
    SumZero(Zero(), s.acked);
    SumZero(Zero(), s.abandoned);
    SumZero(PendingWeights().worker, s.workers);
    SumZero(ProcessedWeights().worker, s.workers);
    SumZero(AbandonedWeights().worker, s.workers);
  }

  /** With no update outstanding, the two gauges add up to the live jobs and every processing is
      accounted for. Each gauge on its own is off by exactly the number of jobs that workers received
      straight from the retry channel, so it is exact if and only if there were none. */
  lemma {:induction false} QuietCounters(c: Config, s: State)
    requires Reachable(c, s) && Quiet(s)
    ensures s.stats.queueSize + s.stats.pendingRetries == LiveCount(s)
    ensures s.stats.totalProcessed == |s.acked| + s.stats.totalRetries + s.stats.totalAbandoned
    ensures s.stats.totalAbandoned == |s.abandoned|
    ensures s.stats.queueSize == |s.main| + InFlightCount(s) <==> s.taken == 0
    ensures s.stats.pendingRetries == |s.retry| + |s.retryJobs| + |s.kept| <==> s.taken == 0
  {
    ReachableInv(c, s);
    QuietTotals(s);
  }

  /** A run after which the queue is empty and QueueSize is -1: a worker takes a retried job straight
      from the retry channel. */
  lemma {:induction false} GaugeDrifts() returns (c: Config, s: State)
    ensures Reachable(c, s) && Quiet(s) && LiveCount(s) == 0
    ensures s.stats.queueSize == -1 && s.stats.pendingRetries == 1
  {
    c := Config(1, 2, 1);
    s := DriftPrefix(c);
    s := DriftRetry(c, s);
    s := After(c, s, TakeRetry(0));
    s := After(c, s, Finish(0, true, 1));
    assert s.main == s.retry == s.retryJobs == s.kept == [] && s.workers == [Idle];
    SumZero(QueueWeights().worker, s.workers);
  }

  lemma {:induction false} DriftPrefix(c: Config) returns (s: State)
    requires c == Config(1, 2, 1)
    ensures Reachable(c, s)
    ensures s == Init(1).(workers := [Failed(Job(0, 0, 1, 2, 0, 1))], accepted := 1,
                          stats := Stats(0, 0, 1, 0, 0))
  {
    ReachableInit(c, 1);
    s := After(c, Init(1), Accept(0));
    assert s == Init(1).(main := [Job(0, 0, 0, 2, 0, 0)], accepted := 1, owedAccepts := 1);
    s := After(c, s, CountAccept);
    s := After(c, s, TakeMain(0));
    assert s == Init(1).(workers := [Sending(Job(0, 0, 1, 2, 0, 0))], accepted := 1, stats := Stats(1, 0, 0, 0, 0));
    s := After(c, s, Finish(0, false, 1));
  }

  lemma {:induction false} DriftRetry(c: Config, s: State) returns (t: State)
    requires c == Config(1, 2, 1) && Reachable(c, s)
    requires s == Init(1).(workers := [Failed(Job(0, 0, 1, 2, 0, 1))], accepted := 1, stats := Stats(0, 0, 1, 0, 0))
    ensures Reachable(c, t)
    ensures t == Init(1).(retry := [Job(0, 0, 1, 2, RetryDelay(1), 1)], accepted := 1, stats := Stats(0, 1, 1, 1, 0))
  {
    t := After(c, s, Resolve(0, 0));
    t := After(c, t, CountRetry(0));
  }

  lemma After(c: Config, s: State, step: Step) returns (t: State)
    requires Reachable(c, s) && Enabled(c, s, step)
    ensures Reachable(c, t) && t == Next(c, s, step)
  {
    ReachableStep(c, s, step);
    t := Next(c, s, step);
  }

  /** The step makes HTTP requests for the job, or begins to. */
  predicate Handles(c: Config, s: State, step: Step, id: nat)
    requires Enabled(c, s, step)
  {
    match step
    case TakeMain(_) => s.main[0].id == id
    case TakeRetry(_) => s.retry[0].id == id
    case Finish(w, _, _) => s.workers[w].job.id == id
    case _ => false
  }

  predicate NeverHandled(c: Config, s: State, steps: seq<Step>, id: nat)
    requires IsRun(c, s, steps)
    decreases |steps|
  {
    steps == []
    || (!Handles(c, s, steps[0], id) && NeverHandled(c, Next(c, s, steps[0]), steps[1..], id))
  }

  predicate Over(s: State, id: nat) { At(s, id, Acknowledged) || At(s, id, Abandoned) }

  lemma {:induction false} FinishedIsNotHandled(c: Config, s: State, step: Step, id: nat)
    requires EachJobOnce(s) && Enabled(c, s, step) && Over(s, id)
    ensures !Handles(c, s, step, id)
  {
    OnePlace(s, id);
    assert !At(s, id, MainQueue) && !At(s, id, RetryQueue) && !At(s, id, InFlight);
  }

  lemma {:induction false} FinishedStaysFinished(c: Config, s: State, step: Step, id: nat)
    requires Enabled(c, s, step) && Over(s, id)
    ensures Over(Next(c, s, step), id)
  {
    var t := Next(c, s, step);
    if i :| 0 <= i < |s.acked| && s.acked[i].id == id {
      assert t.acked[i].id == id;
    } else {
      var i :| 0 <= i < |s.abandoned| && s.abandoned[i].id == id;
      assert t.abandoned[i].id == id;
    }
  }

  /** Over any continuation of any run, an acknowledged or abandoned job is never sent again. */
  lemma {:induction false} NeverSentAgain(c: Config, s: State, steps: seq<Step>, id: nat)
    requires Reachable(c, s) && IsRun(c, s, steps) && Over(s, id)
    ensures NeverHandled(c, s, steps, id)
    decreases |steps|
  {
    if steps != [] {
      ReachableInv(c, s);
      FinishedIsNotHandled(c, s, steps[0], id);
      FinishedStaysFinished(c, s, steps[0], id);
      ReachableStep(c, s, steps[0]);
      NeverSentAgain(c, Next(c, s, steps[0]), steps[1..], id);
    }
  }

  predicate JobAt(s: State, j: Job) {
    j in s.main || j in s.retry || j in s.retryJobs || j in s.kept || j in s.acked || j in s.abandoned
    || Sending(j) in s.workers || Failed(j) in s.workers
  }

  /** No job is ever processed more than maxRetries times, nor costs more than maxRetries^2 requests. */
  lemma {:induction false} RequestBudget(c: Config, s: State, j: Job)
    requires Reachable(c, s) && c.maxRetries >= 1 && JobAt(s, j)
    ensures j.attempts <= c.maxRetries
    ensures j.requests <= c.maxRetries * c.maxRetries
  {
    JobWithinBudget(c, s, j);
    AllowanceIsProduct(c, j.attempts);
    hide Reachable, JobAt, Allowance;
    Backoff.ScaleBoth(j.attempts, c.maxRetries, c.maxRetries);
  }

  lemma {:induction false} JobWithinBudget(c: Config, s: State, j: Job)
    requires Reachable(c, s) && JobAt(s, j)
    ensures j.attempts <= Limit(c) && j.requests <= Allowance(c, j.attempts)
  {
    ReachableInv(c, s);
    if Sending(j) in s.workers {
      assert WorkerOk(c, Sending(j));
    } else if Failed(j) in s.workers {
      assert WorkerOk(c, Failed(j));
    }
  }

  // ---------- Termination ----------

  /** Remaining attempts weigh ten each; the rest ranks the places a job passes through per attempt. */
  function JobRank(c: Config, base: int, j: Job): int { 10 * (Limit(c) - j.attempts) + base }

  function WorkerRank(c: Config, x: Worker): int {
    match x
    case Idle => 0
    case Sending(j) => JobRank(c, 8, j)
    case Failed(j) => JobRank(c, 7, j)
    case OwesRetry => 1
    case OwesAbandon => 1
  }

  function Rank(c: Config, base: int): Job -> int { (j: Job) => JobRank(c, base, j) }

  function Ranks(c: Config): Weights {
    Weights(Rank(c, 2), Rank(c, 5), Rank(c, 4), (x: Worker) => WorkerRank(c, x), Zero(), Zero())
  }

  function Potential(c: Config, s: State): int { Total(Ranks(c), s) + s.owedAccepts + OwedPromotions(s) }

  /** Steps that do nothing but let the timer pass over jobs that stay where they are. */
  predicate IsIdle(c: Config, s: State, step: Step)
    requires Enabled(c, s, step)
  {
    step.StartTick? || step.EndTick? || (step.Scan? && !Promotes(c, s))
  }

  function AcceptCost(c: Config): int { 10 * Limit(c) + 3 }

  lemma {:induction false} PotentialStep(c: Config, s: State, step: Step)
    requires Enabled(c, s, step)
    requires step.Finish? || step.Resolve? ==> WorkerOk(c, s.workers[step.w])
    ensures step.Accept? ==> Potential(c, Next(c, s, step)) == Potential(c, s) + AcceptCost(c)
    ensures IsIdle(c, s, step) ==> Potential(c, Next(c, s, step)) == Potential(c, s)
    ensures !step.Accept? && !IsIdle(c, s, step) ==> Potential(c, Next(c, s, step)) < Potential(c, s)
  {
    hide Change, Total, Ranks;
    TotalAfterStep(Ranks(c), c, s, step);
    RankChange(c, s, step);
  }

  lemma {:induction false} RankChange(c: Config, s: State, step: Step)
    requires Enabled(c, s, step)
    requires step.Finish? || step.Resolve? ==> WorkerOk(c, s.workers[step.w])
    ensures var d := Change(Ranks(c), c, s, step);
            && (step.Accept? ==> d == AcceptCost(c) - 1)
            && (IsIdle(c, s, step) ==> d == 0)
            && (step.CountAccept? || step.CountPromotion? ==> d == 0)
            && (step.Scan? && Promotes(c, s) ==> d < -1)
            && (!step.Accept? && !IsIdle(c, s, step) && !step.CountAccept? && !step.CountPromotion? ==> d < 0)
  {
  }

  lemma {:induction false} PotentialNonNegative(c: Config, s: State)
    requires WithinBudget(c, s)
    ensures Potential(c, s) >= 0
  {
    SumNonNegative(Rank(c, 2), s.main);
    SumNonNegative(Rank(c, 5), s.retry);
    SumNonNegative(Rank(c, 4), s.retryJobs);
    SumNonNegative(Rank(c, 4), s.kept);
    assert forall x :: x in s.workers ==> WorkerOk(c, x);
    SumNonNegative(Ranks(c).worker, s.workers);
    SumZero(Zero(), s.acked);
    SumZero(Zero(), s.abandoned);
  }

  /** The number of steps of a run that are neither enqueues nor idle timer work. */
  function WorkSteps(c: Config, s: State, steps: seq<Step>): nat
    requires IsRun(c, s, steps)
    decreases |steps|
  {
    if steps == [] then 0
    else
      (if steps[0].Accept? || IsIdle(c, s, steps[0]) then 0 else 1)
      + WorkSteps(c, Next(c, s, steps[0]), steps[1..])
  }

  /** The steps in which the timer finds nothing to do. */
  function TimerSteps(c: Config, s: State, steps: seq<Step>): nat
    requires IsRun(c, s, steps)
    decreases |steps|
  {
    if steps == [] then 0
    else
      (if steps[0].StartTick? || steps[0].EndTick?
          || (steps[0].Scan? && !(s.retryJobs[0].nextRetryAt <= s.tick.now && |s.main| < Slots(c))) then 1 else 0)
      + TimerSteps(c, Next(c, s, steps[0]), steps[1..])
  }

  /** Every step is an enqueue, timer idling or work. */
  lemma {:induction false} StepsAddUp(c: Config, s: State, steps: seq<Step>)
    requires IsRun(c, s, steps)
    ensures |steps| == Accepts(steps) + TimerSteps(c, s, steps) + WorkSteps(c, s, steps)
    decreases |steps|
  {
    if steps != [] {
      StepsAddUp(c, Next(c, s, steps[0]), steps[1..]);
    }
  }

  function Accepts(steps: seq<Step>): nat {
    if steps == [] then 0 else (if steps[0].Accept? then 1 else 0) + Accepts(steps[1..])
  }

  lemma {:induction false} WorkIsPaidFor(c: Config, s: State, steps: seq<Step>)
    requires IsRun(c, s, steps) && WithinBudget(c, s)
    ensures WorkSteps(c, s, steps) <= Potential(c, s) + AcceptCost(c) * Accepts(steps)
    decreases |steps|
  {
    if steps == [] {
      PotentialNonNegative(c, s);
    } else {
      var t := Next(c, s, steps[0]);
      PotentialStep(c, s, steps[0]);
      WithinBudgetStep(c, s, steps[0]);
      WorkIsPaidFor(c, t, steps[1..]);
      assert AcceptCost(c) * (1 + Accepts(steps[1..])) == AcceptCost(c) + AcceptCost(c) * Accepts(steps[1..]);
    }
  }

  /** Finitely many enqueues cause finitely many steps of work, with an explicit bound per enqueue. */
  lemma {:induction false} BoundedWork(c: Config, workerCount: nat, steps: seq<Step>)
    requires IsRun(c, Init(workerCount), steps)
    ensures WorkSteps(c, Init(workerCount), steps)
            <= (10 * (if c.maxRetries >= 1 then c.maxRetries else 1) + 3) * Accepts(steps)
  {
    hide WithinBudget, Potential, WorkSteps, Accepts, IsRun, Init;
    WithinBudgetInit(c, workerCount);
    NothingToDoInitially(c, workerCount);
    WorkIsPaidFor(c, Init(workerCount), steps);
  }

  lemma {:induction false} NothingToDoInitially(c: Config, workerCount: nat)
    ensures Potential(c, Init(workerCount)) == 0
  {
    hide Total, JobRank;
    TotalOfInit(Ranks(c), workerCount);
  }
}
