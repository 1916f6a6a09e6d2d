/** The email workers' counters against what really became of the jobs. */
module EmailLedger {
  import opened Sums
  import opened Backoff
  import opened EmailPool

  function Tries(): Job -> int { (j: Job) => j.attempts }

  /** The attempts already counted in the job a worker carries. */
  function CarriedTries(): Worker -> int {
    (x: Worker) => if x.phase.Popped? || x.phase.Working? then x.phase.job.attempts else 0
  }

  function Busy(): Worker -> int { Flag((x: Worker) => x.phase.Working?) }

  /** Workers that gave a job up and have not counted it yet. */
  function OwingFailure(): Worker -> int { Flag((x: Worker) => x.phase.OwesFailed?) }

  /** All sends that ended, read off the jobs themselves. */
  function TriesTotal(s: State): int {
    Sum(Tries(), s.queue) + Sum(Tries(), s.sleeping) + Sum(CarriedTries(), s.workers)
    + Sum(Tries(), s.succeeded) + Sum(Tries(), s.failed) + Sum(Tries(), s.dropped) + Sum(Tries(), s.cleared)
  }

  predicate CountsOutcomes(s: State) {
    && Sum(Successful(), s.workers) == |s.succeeded|
    && Sum(Unsuccessful(), s.workers) + Sum(OwingFailure(), s.workers) == |s.failed|
    && Sum(Processed(), s.workers) == TriesTotal(s) + Sum(Busy(), s.workers)
  }

  lemma {:induction false} TriesFinish(c: Config, s: State, step: Step)
    requires Enabled(c, s, step) && step.Finish?
    ensures TriesTotal(Next(c, s, step)) == TriesTotal(s) + 1
  {
    hide Sum;
    var job := Attempted(s.workers[step.w].phase.job);
    SumUpdate(CarriedTries(), s.workers, step.w, NextWorker(c, s, step));
    if step.ok {
      SumAppend(Tries(), s.succeeded, job);
    } else if job.attempts < job.maxAttempts {
      SumAppend(Tries(), s.sleeping, BackedOff(c, job, step.now));
    } else {
      SumAppend(Tries(), s.failed, job);
    }
  }

  lemma {:induction false} TriesMove(c: Config, s: State, step: Step)
    requires Enabled(c, s, step) && (step.WakeUp? || step.Pop?)
    ensures TriesTotal(Next(c, s, step)) == TriesTotal(s)
  {
    hide Sum;
    if step.Pop? {
      SumRemove(Tries(), s.queue, step.i);
      SumUpdate(CarriedTries(), s.workers, step.w, NextWorker(c, s, step));
    } else {
      SumRemove(Tries(), s.sleeping, step.i);
      SumAppend(Tries(), s.queue, s.sleeping[step.i]);
      SumAppend(Tries(), s.dropped, s.sleeping[step.i]);
    }
  }

  lemma {:induction false} TriesStep(c: Config, s: State, step: Step)
    requires Enabled(c, s, step)
    ensures TriesTotal(Next(c, s, step)) == TriesTotal(s) + if step.Finish? then 1 else 0
  {
    hide Sum;
    match step
    case Submit(_, _, _) => SumAppend(Tries(), s.queue, NewJob(s, step));
    case Close =>
    case Clear =>
      SumConcat(Tries(), s.cleared, s.queue);
      SumZero(Tries(), []);
    case WakeUp(_) => TriesMove(c, s, step);
    case Pop(_, _) => TriesMove(c, s, step);
    case Finish(_, _, _, _) => TriesFinish(c, s, step);
    case _ => SumUpdate(CarriedTries(), s.workers, step.w, NextWorker(c, s, step));
  }

  lemma {:induction false} OutcomesStep(c: Config, s: State, step: Step)
    requires Enabled(c, s, step) && CountsOutcomes(s)
    ensures CountsOutcomes(Next(c, s, step))
  {
    hide Sum, TriesTotal;
    TriesStep(c, s, step);
    if IsWorkerStep(step) {
      SumUpdate(Successful(), s.workers, step.w, NextWorker(c, s, step));
      SumUpdate(Unsuccessful(), s.workers, step.w, NextWorker(c, s, step));
      SumUpdate(Processed(), s.workers, step.w, NextWorker(c, s, step));
      SumUpdate(OwingFailure(), s.workers, step.w, NextWorker(c, s, step));
      SumUpdate(Busy(), s.workers, step.w, NextWorker(c, s, step));
    }
  }

  lemma {:induction false} OutcomesInit(workerCount: nat)
    ensures CountsOutcomes(Init(workerCount))
  {
    var ws := Init(workerCount).workers;
    SumZero(Successful(), ws);
    SumZero(Unsuccessful(), ws);
    SumZero(Processed(), ws);
    SumZero(OwingFailure(), ws);
    SumZero(Busy(), ws);
    SumZero(CarriedTries(), ws);
  }

  lemma {:induction false} OutcomesRun(c: Config, s: State, steps: seq<Step>)
    requires IsRun(c, s, steps) && CountsOutcomes(s)
    ensures CountsOutcomes(Run(c, s, steps))
    decreases |steps|
  {
    if steps != [] {
      hide CountsOutcomes;
      OutcomesStep(c, s, steps[0]);
      OutcomesRun(c, Next(c, s, steps[0]), steps[1..]);
    }
  }

  /** In every reachable state the pool's counters are what became of its jobs: successes are the jobs
      that succeeded, failures those given up, and what is processed are the sends made for all jobs;
      between jobs, the retries are the sends that neither delivered nor ended a job. */
  lemma {:induction false} CountersAreOutcomes(c: Config, s: State)
    requires Reachable(c, s)
    ensures CountsOutcomes(s)
    ensures (forall w :: 0 <= w < |s.workers| ==> s.workers[w].phase.Idle?)
            ==> && Sum(Unsuccessful(), s.workers) == |s.failed|
                && Sum(Processed(), s.workers) == TriesTotal(s)
                && Sum(Retried(), s.workers) == TriesTotal(s) - |s.succeeded| - |s.failed|
  {
    hide TriesTotal, Sum;
    var workerCount: nat, steps :|
      IsRun(c, Init(workerCount), steps) && s == Run(c, Init(workerCount), steps);
    OutcomesInit(workerCount);
    OutcomesRun(c, Init(workerCount), steps);
    PoolBalance(c, s);
    if forall w :: 0 <= w < |s.workers| ==> s.workers[w].phase.Idle? {
      SumZero(OwingFailure(), s.workers);
      SumZero(Busy(), s.workers);
    }
  }

  /** The email back-off in nanoseconds: the interval doubled with every attempt, at most one hour. */
  lemma {:induction false} BackoffInNumbers(c: Config, job: Job, now: int)
    requires job.attempts >= 1 && 0 <= c.retryInterval
    requires c.retryInterval * Pow(2, job.attempts - 1) < 0x8000_0000_0000_0000
    ensures var wait := c.retryInterval * Pow(2, job.attempts - 1);
            BackedOff(c, job, now) == job.(scheduledAt := now + if wait <= 3_600_000_000_000 then wait else 3_600_000_000_000)
  {
    CappedDelayExact(c.retryInterval, job.attempts, HOUR);
  }
}
