/** One email worker on the heap, run through whole jobs, and the pool steps each job amounts to. */
module EmailWorker {
  import opened Backoff
  import JobQueue
  import opened EmailPool

  /** What becomes of a job a worker has finished with. */
  datatype Outcome = Delivered(job: Job) | RetryLater(job: Job) | GivenUp(job: Job)

  /** A worker's counters after processing one job from start to end. */
  function AfterJob(x: Worker, job: Job, ok: bool, duration: nat): Worker {
    var st := x.stats.(processed := x.stats.processed + 1);
    var counted :=
      if ok then st.(successful := st.successful + 1)
      else if job.attempts + 1 < job.maxAttempts then st.(retried := st.retried + 1)
      else st.(failed := st.failed + 1);
    Averaged(Worker(Idle, counted, x.durations), duration)
  }

  class EmailSenderWorker {
    const config: Config
    var stats: Stats
    ghost var durations: seq<nat>

    ghost function View(): Worker
      reads this
    {
      Worker(Idle, stats, durations)
    }

    ghost predicate Valid()
      reads this
    {
      WorkerInv(View())
    }

    constructor (config: Config)
      ensures Valid() && this.config == config && stats == Stats(0, 0, 0, 0, 0) && durations == []
    {
      this.config := config;
      stats, durations := Stats(0, 0, 0, 0, 0), [];
    }

    method UpdateAverageTime(duration: nat)
      requires stats.processed == |durations| + 1 && stats.averageTime == RollingAverage(durations)
      modifies this
      ensures durations == old(durations) + [duration]
      ensures stats == old(stats).(averageTime := RollingAverage(durations))
    {
      AveragedKeeps(View(), duration);
      var n := stats.processed;
      if n == 1 {
        stats := stats.(averageTime := duration);
      } else {
        stats := stats.(averageTime := Quotient(stats.averageTime * (n - 1) + duration, n));
      }
      durations := durations + [duration];
    }

    /** Run to the end, the counters agree again: one more email processed, and exactly one of the three
        outcomes counted. */
    method ProcessEmailJob(job: Job, ok: bool, duration: nat, now: int) returns (outcome: Outcome)
      requires Valid()
      modifies this
      ensures Valid() && View() == AfterJob(old(View()), job, ok, duration)
      ensures outcome == if ok then Delivered(Attempted(job))
                         else if job.attempts + 1 < job.maxAttempts
                         then RetryLater(BackedOff(config, Attempted(job), now))
                         else GivenUp(Attempted(job))
    {
      AveragedKeeps(View().(stats := stats.(processed := stats.processed + 1)), duration);
      stats := stats.(processed := stats.processed + 1);
      var tried := Attempted(job);
      if ok {
        stats := stats.(successful := stats.successful + 1);
        outcome := Delivered(tried);
      } else if tried.attempts < tried.maxAttempts {
        var retryTime := now + CappedDelay(config.retryInterval, tried.attempts, HOUR);
        outcome := RetryLater(tried.(scheduledAt := retryTime));
        stats := stats.(retried := stats.retried + 1);
      } else {
        stats := stats.(failed := stats.failed + 1);
        outcome := GivenUp(tried);
      }
      UpdateAverageTime(duration);
    }
  }

  // ---------- The same as steps of the pool ----------

  function JobSteps(w: nat, job: Job, ok: bool, duration: nat, now: int): seq<Step> {
    [Begin(w), Finish(w, ok, duration, now)] +
    if ok then [] else [if job.attempts + 1 < job.maxAttempts then CountRetried(w) else CountFailed(w), CountAverage(w)]
  }

  lemma {:induction false} RunFirst(c: Config, s: State, step: Step, rest: seq<Step>)
    requires Enabled(c, s, step) && IsRun(c, Next(c, s, step), rest)
    ensures IsRun(c, s, [step] + rest) && Run(c, s, [step] + rest) == Run(c, Next(c, s, step), rest)
  {
    assert ([step] + rest)[1..] == rest;
  }

  /** The two counter updates that follow a failed send. */
  lemma {:induction false} CountSteps(c: Config, s: State, w: nat, count: Step)
    requires w < |s.workers| && s.workers[w].stats.processed >= 1
    requires if count == CountRetried(w) then s.workers[w].phase.OwesRetried?
             else count == CountFailed(w) && s.workers[w].phase.OwesFailed?
    ensures var x := s.workers[w]; var st := x.stats;
            var counted := if count.CountRetried? then st.(retried := st.retried + 1) else st.(failed := st.failed + 1);
            && IsRun(c, s, [count, CountAverage(w)])
            && Run(c, s, [count, CountAverage(w)])
               == s.(workers := s.workers[w := Averaged(Worker(Idle, counted, x.durations), x.phase.duration)])
  {
    var t := Next(c, s, count);
    RunFirst(c, t, CountAverage(w), []);
    RunFirst(c, s, count, [CountAverage(w)] + []);
    assert [count] + ([CountAverage(w)] + []) == [count, CountAverage(w)];
  }

  /** The pool after the worker has dealt with its job: the job has moved on, the counters are settled. */
  function AfterProcess(c: Config, s: State, w: nat, ok: bool, duration: nat, now: int): State
    requires w < |s.workers| && s.workers[w].phase.Popped?
  {
    var job := s.workers[w].phase.job;
    var tried := Attempted(job);
    var t := s.(workers := s.workers[w := AfterJob(s.workers[w], job, ok, duration)]);
    if ok then t.(succeeded := s.succeeded + [tried])
    else if tried.attempts < tried.maxAttempts then t.(sleeping := s.sleeping + [BackedOff(c, tried, now)])
    else t.(failed := s.failed + [tried])
  }

  lemma {:induction false} FinishSteps(c: Config, s: State, w: nat, ok: bool, duration: nat, now: int)
    requires w < |s.workers| && s.workers[w].phase.Popped?
    ensures var steps := JobSteps(w, s.workers[w].phase.job, ok, duration, now)[1..];
            && IsRun(c, Next(c, s, Begin(w)), steps)
            && Run(c, Next(c, s, Begin(w)), steps) == AfterProcess(c, s, w, ok, duration, now)
  {
    var steps := JobSteps(w, s.workers[w].phase.job, ok, duration, now)[1..];
    var finish := Finish(w, ok, duration, now);
    assert steps == [finish] + steps[1..];
    if ok {
      assert steps[1..] == [];
      SuccessSteps(c, s, w, duration, now);
    } else {
      assert steps[1..] == [steps[1], CountAverage(w)];
      FailureSteps(c, s, w, duration, now);
    }
    hide Next;
    RunFirst(c, Next(c, s, Begin(w)), finish, steps[1..]);
  }

  lemma {:induction false} SuccessSteps(c: Config, s: State, w: nat, duration: nat, now: int)
    requires w < |s.workers| && s.workers[w].phase.Popped?
    ensures Enabled(c, Next(c, s, Begin(w)), Finish(w, true, duration, now))
    ensures Next(c, Next(c, s, Begin(w)), Finish(w, true, duration, now)) == AfterProcess(c, s, w, true, duration, now)
  {
  }

  lemma {:induction false} FailureSteps(c: Config, s: State, w: nat, duration: nat, now: int)
    requires w < |s.workers| && s.workers[w].phase.Popped?
    ensures var job := s.workers[w].phase.job; var s1 := Next(c, s, Begin(w)); var finish := Finish(w, false, duration, now);
            var rest := [if job.attempts + 1 < job.maxAttempts then CountRetried(w) else CountFailed(w), CountAverage(w)];
            && Enabled(c, s1, finish) && IsRun(c, Next(c, s1, finish), rest)
            && Run(c, Next(c, s1, finish), rest) == AfterProcess(c, s, w, false, duration, now)
  {
    hide IsRun, Run;
    var job := s.workers[w].phase.job;
    CountSteps(c, Next(c, Next(c, s, Begin(w)), Finish(w, false, duration, now)), w,
               if job.attempts + 1 < job.maxAttempts then CountRetried(w) else CountFailed(w));
  }

  /** What `ProcessEmailJob` does is a run of the pool, so every law of pool runs covers it. */
  lemma {:induction false} ProcessIsRun(c: Config, s: State, w: nat, ok: bool, duration: nat, now: int)
    requires w < |s.workers| && s.workers[w].phase.Popped?
    ensures var steps := JobSteps(w, s.workers[w].phase.job, ok, duration, now);
            && IsRun(c, s, steps)
            && Run(c, s, steps) == AfterProcess(c, s, w, ok, duration, now)
  {
    var steps := JobSteps(w, s.workers[w].phase.job, ok, duration, now);
    FinishSteps(c, s, w, ok, duration, now);
    assert steps == [Begin(w)] + steps[1..];
    RunFirst(c, s, Begin(w), steps[1..]);
  }

  // ---------- The pool's queue is the heap ----------

  function Entries(q: seq<Job>): seq<JobQueue.Job> { seq(|q|, i requires 0 <= i < |q| => Entry(q[i])) }

  /** The heap object holds the jobs of the pool's queue, in whatever order. */
  ghost predicate Represents(queue: JobQueue.PriorityQueue, c: Config, s: State)
    reads queue
  {
    && queue.Valid() && queue.policy == JobQueue.RefusesAfterClose && queue.maxSize == c.maxSize
    && queue.closed == s.closed && multiset(queue.jobs) == multiset(Entries(s.queue))
  }

  lemma {:induction false} EntriesWithout(q: seq<Job>, i: nat)
    requires i < |q|
    ensures multiset(Entries(Without(q, i))) == multiset(Entries(q)) - multiset{Entry(q[i])}
  {
    var es := Entries(q);
    assert Entries(Without(q, i)) == es[..i] + es[i + 1..];
    assert es == es[..i] + [es[i]] + es[i + 1..];
  }

  lemma {:induction false} EntriesSize(jobs: seq<JobQueue.Job>, q: seq<Job>)
    requires multiset(jobs) == multiset(Entries(q))
    ensures |jobs| == |q|
  {
    assert |multiset(jobs)| == |jobs| && |multiset(Entries(q))| == |Entries(q)|;
  }

  /** What the heap hands to an idle worker is what the pool's Pop takes; it hands out nothing exactly
      when the queue is closed or empty. */
  method PopForWorker(
    queue: JobQueue.PriorityQueue, ctxDone: bool, ghost c: Config, ghost s: State, ghost w: nat)
    returns (r: JobQueue.PopResult, ghost i: nat)
    requires Represents(queue, c, s) && w < |s.workers| && s.workers[w].phase.Idle?
    modifies queue
    ensures r.Popped? <==> !s.closed && s.queue != []
    ensures r.Popped? ==> Enabled(c, s, Pop(w, i)) && r.job == Entry(s.queue[i])
    ensures r.Popped? ==> Represents(queue, c, Next(c, s, Pop(w, i)))
    ensures r.Popped? ==> forall k :: 0 <= k < |s.queue| ==>
              s.queue[k].priority < s.queue[i].priority
              || (s.queue[k].priority == s.queue[i].priority && s.queue[i].scheduledAt <= s.queue[k].scheduledAt)
    ensures !r.Popped? ==> Represents(queue, c, s)
  {
    i := 0;
    EntriesSize(queue.jobs, s.queue);
    r := queue.Pop(ctxDone);
    if r.Popped? {
      i := BestIndex(s.queue, r.job);
      EntriesWithout(s.queue, i);
    }
  }

  lemma {:induction false} BestIndex(q: seq<Job>, best: JobQueue.Job) returns (i: nat)
    requires best in multiset(Entries(q))
    requires forall x :: x in multiset(Entries(q)) ==> !JobQueue.Outranks(x, best)
    ensures i < |q| && Entry(q[i]) == best && forall k :: 0 <= k < |q| ==> !Outranks(q[k], q[i])
  {
    var es := Entries(q);
    i :| 0 <= i < |es| && es[i] == best;
    forall k | 0 <= k < |q| ensures !Outranks(q[k], q[i]) {
      assert es[k] in multiset(es);
    }
  }

  /** A push succeeds exactly when the pool has room, and then appends the job: for a submission and for
      the re-push after a back-off sleep alike. */
  method PushForPool(queue: JobQueue.PriorityQueue, job: Job, ghost c: Config, ghost s: State)
    returns (r: JobQueue.PushResult)
    requires Represents(queue, c, s)
    modifies queue
    ensures r.Pushed? <==> HasRoom(c, s)
    ensures Represents(queue, c, if r.Pushed? then s.(queue := s.queue + [job]) else s)
  {
    EntriesSize(queue.jobs, s.queue);
    assert Entries(s.queue + [job]) == Entries(s.queue) + [Entry(job)];
    r := queue.Push(Entry(job));
  }

  /** A new heap is the queue of a new pool. */
  method NewQueue(c: Config, ghost workerCount: nat) returns (queue: JobQueue.PriorityQueue)
    ensures fresh(queue) && Represents(queue, c, Init(workerCount))
  {
    queue := new JobQueue.PriorityQueue(JobQueue.RefusesAfterClose, c.maxSize);
  }

  /** Closing and clearing the heap are the pool's steps of those names. */
  method CloseQueue(queue: JobQueue.PriorityQueue, ghost c: Config, ghost s: State)
    requires Represents(queue, c, s)
    modifies queue
    ensures Enabled(c, s, Close) && Represents(queue, c, Next(c, s, Close))
  {
    queue.Close();
  }

  method ClearQueue(queue: JobQueue.PriorityQueue, ghost c: Config, ghost s: State)
    requires Represents(queue, c, s)
    modifies queue
    ensures Enabled(c, s, Clear) && Represents(queue, c, Next(c, s, Clear))
  {
    queue.Clear();
  }
}
