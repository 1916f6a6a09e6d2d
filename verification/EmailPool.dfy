/** The email worker pool: several workers, one closable priority queue, and a sleeping goroutine per
    job in back-off. Every queue operation and every mutex section is one atomic step. */
module EmailPool {
  import opened Sums
  import opened Backoff
  import JobQueue

  /** `id` is history: the order of submission. */
  datatype Job = Job(id: nat, priority: int, scheduledAt: int, attempts: nat, maxAttempts: int)

  datatype Stats = Stats(processed: nat, successful: nat, failed: nat, retried: nat, averageTime: nat)

  /** Where a worker stands in `processJobs` / `processEmailJob`. */
  datatype Phase =
    | Idle
    | Popped(job: Job)              // taken from the queue, not yet counted
    | Working(job: Job)             // counted as processed, send in progress
    | OwesRetried(duration: nat)    // back-off started; EmailsRetried not yet updated
    | OwesFailed(duration: nat)     // given up; EmailsFailed not yet updated
    | OwesAverage(duration: nat)    // failure counted; AverageTime not yet updated

  /** `durations` is history: the processing times folded into the average so far. */
  datatype Worker = Worker(phase: Phase, stats: Stats, durations: seq<nat>)

  datatype Config = Config(maxSize: int, retryInterval: int)

  datatype State = State(
    queue: seq<Job>, closed: bool, sleeping: seq<Job>, workers: seq<Worker>,
    succeeded: seq<Job>, failed: seq<Job>, dropped: seq<Job>, cleared: seq<Job>, submitted: nat)

  datatype Step =
    | Submit(priority: int, scheduledAt: int, maxAttempts: int)
    | Close
    | Clear
    | Pop(w: nat, i: nat)
    | Begin(w: nat)
    | Finish(w: nat, ok: bool, duration: nat, now: int)
    | CountRetried(w: nat)
    | CountFailed(w: nat)
    | CountAverage(w: nat)
    | WakeUp(i: nat)

  /** The part of a job that the heap orders by. */
  function Entry(job: Job): JobQueue.Job { JobQueue.Job(job.id, job.priority, job.scheduledAt) }

  predicate Outranks(a: Job, b: Job) { JobQueue.Outranks(Entry(a), Entry(b)) }

  /** The steps one worker takes. */
  predicate IsWorkerStep(step: Step) { !step.Submit? && !step.Close? && !step.Clear? && !step.WakeUp? }

  predicate HasRoom(c: Config, s: State) { !s.closed && (c.maxSize > 0 ==> |s.queue| < c.maxSize) }

  /** `updateAverageTime`: the rolling average of n durations from that of the first n - 1. */
  function UpdatedAverage(average: nat, n: nat, duration: nat): nat
    requires n >= 1
  {
    if n == 1 then duration else Quotient(average * (n - 1) + duration, n)
  }

  function Averaged(x: Worker, duration: nat): Worker
    requires x.stats.processed >= 1
  {
    var average := UpdatedAverage(x.stats.averageTime, x.stats.processed, duration);
    x.(stats := x.stats.(averageTime := average), durations := x.durations + [duration])
  }

  function Attempted(job: Job): Job { job.(attempts := job.attempts + 1) }

  /** `scheduleRetry`: the attempt-th back-off, capped at one hour. */
  function BackedOff(c: Config, job: Job, now: int): Job {
    job.(scheduledAt := now + CappedDelay(c.retryInterval, job.attempts, HOUR))
  }

  predicate Enabled(c: Config, s: State, step: Step) {
    match step
    case Submit(_, _, _) => HasRoom(c, s)
    case Close => true
    case Clear => true
    case Pop(w, i) =>
      w < |s.workers| && s.workers[w].phase.Idle? && !s.closed && i < |s.queue|
      && forall k :: 0 <= k < |s.queue| ==> !Outranks(s.queue[k], s.queue[i])
    case Begin(w) => w < |s.workers| && s.workers[w].phase.Popped?
    case Finish(w, _, _, _) => w < |s.workers| && s.workers[w].phase.Working? && s.workers[w].stats.processed >= 1
    case CountRetried(w) => w < |s.workers| && s.workers[w].phase.OwesRetried?
    case CountFailed(w) => w < |s.workers| && s.workers[w].phase.OwesFailed?
    case CountAverage(w) => w < |s.workers| && s.workers[w].phase.OwesAverage? && s.workers[w].stats.processed >= 1
    case WakeUp(i) => i < |s.sleeping|
  }

  function Without(q: seq<Job>, i: nat): seq<Job>
    requires i < |q|
  {
    q[..i] + q[i + 1..]
  }

  function NewJob(s: State, step: Step): Job
    requires step.Submit?
  {
    Job(s.submitted, step.priority, step.scheduledAt, 0, step.maxAttempts)
  }

  /** The worker after the step; only its own fields change. */
  function NextWorker(c: Config, s: State, step: Step): Worker
    requires Enabled(c, s, step) && IsWorkerStep(step)
  {
    var x := s.workers[step.w];
    var st := x.stats;
    match step
    case Pop(_, i) => x.(phase := Popped(s.queue[i]))
    case Begin(_) => x.(phase := Working(x.phase.job), stats := st.(processed := st.processed + 1))
    case Finish(_, ok, d, _) =>
      if ok then Averaged(x.(stats := st.(successful := st.successful + 1)), d).(phase := Idle)
      else if Attempted(x.phase.job).attempts < x.phase.job.maxAttempts then x.(phase := OwesRetried(d))
      else x.(phase := OwesFailed(d))
    case CountRetried(_) => x.(phase := OwesAverage(x.phase.duration), stats := st.(retried := st.retried + 1))
    case CountFailed(_) => x.(phase := OwesAverage(x.phase.duration), stats := st.(failed := st.failed + 1))
    case CountAverage(_) => Averaged(x, x.phase.duration).(phase := Idle)
  }

  function Next(c: Config, s: State, step: Step): State
    requires Enabled(c, s, step)
  {
    match step
    case Submit(_, _, _) => s.(queue := s.queue + [NewJob(s, step)], submitted := s.submitted + 1)
    case Close => s.(closed := true)
    case Clear => s.(queue := [], cleared := s.cleared + s.queue)
    case WakeUp(i) =>
      var job, rest := s.sleeping[i], Without(s.sleeping, i);
      if HasRoom(c, s) then s.(sleeping := rest, queue := s.queue + [job])
      else s.(sleeping := rest, dropped := s.dropped + [job])
    case Pop(w, i) =>
      s.(queue := Without(s.queue, i), workers := s.workers[w := NextWorker(c, s, step)])
    case Finish(w, ok, _, now) =>
      var job := Attempted(s.workers[w].phase.job);
      var t := s.(workers := s.workers[w := NextWorker(c, s, step)]);
      if ok then t.(succeeded := s.succeeded + [job])
      else if job.attempts < job.maxAttempts then t.(sleeping := s.sleeping + [BackedOff(c, job, now)])
      else t.(failed := s.failed + [job])
    case _ => s.(workers := s.workers[step.w := NextWorker(c, s, step)])
  }

  function Init(workerCount: nat): State {
    State([], false, [], seq(workerCount, _ => Worker(Idle, Stats(0, 0, 0, 0, 0), [])), [], [], [], [], 0)
  }

  predicate IsRun(c: Config, s: State, steps: seq<Step>)
    decreases |steps|
  {
    steps == [] || (Enabled(c, s, steps[0]) && IsRun(c, Next(c, s, steps[0]), steps[1..]))
  }

  function Run(c: Config, s: State, steps: seq<Step>): State
    requires IsRun(c, s, steps)
    decreases |steps|
  {
    if steps == [] then s else Run(c, Next(c, s, steps[0]), steps[1..])
  }

  ghost predicate Reachable(c: Config, s: State) {
    exists workerCount: nat, steps ::
      IsRun(c, Init(workerCount), steps) && s == Run(c, Init(workerCount), steps)
  }

  lemma {:induction false} RunExtends(c: Config, s: State, steps: seq<Step>, step: Step)
    requires IsRun(c, s, steps) && Enabled(c, Run(c, s, steps), step)
    ensures IsRun(c, s, steps + [step]) && Run(c, s, steps + [step]) == Next(c, Run(c, s, steps), step)
    decreases |steps|
  {
    hide Enabled, Next;
    if steps == [] {
      assert steps + [step] == [step] && [step][1..] == [];
    } else {
      assert (steps + [step])[1..] == steps[1..] + [step];
      RunExtends(c, Next(c, s, steps[0]), steps[1..], step);
    }
  }

  /** A new pool is reachable, and so is whatever an enabled step makes of a reachable state. */
  lemma {:induction false} ReachableClosed(c: Config, workerCount: nat, s: State, step: Step)
    ensures Reachable(c, Init(workerCount))
    ensures Reachable(c, s) && Enabled(c, s, step) ==> Reachable(c, Next(c, s, step))
  {
    assert IsRun(c, Init(workerCount), []) && Run(c, Init(workerCount), []) == Init(workerCount);
    if Reachable(c, s) && Enabled(c, s, step) {
      var n: nat, steps :| IsRun(c, Init(n), steps) && s == Run(c, Init(n), steps);
      RunExtends(c, Init(n), steps, step);
    }
  }

  // ---------- Each job is in exactly one place ----------

  function HasId(id: nat): Job -> bool { (j: Job) => j.id == id }

  function Is(id: nat): Job -> int { Flag(HasId(id)) }

  predicate Carries(x: Worker, id: nat) { (x.phase.Popped? || x.phase.Working?) && x.phase.job.id == id }

  function Carrier(id: nat): Worker -> bool { (x: Worker) => Carries(x, id) }

  function Carried(id: nat): Worker -> int { Flag(Carrier(id)) }

  function Copies(s: State, id: nat): int {
    Sum(Is(id), s.queue) + Sum(Is(id), s.sleeping) + Sum(Carried(id), s.workers)
    + Sum(Is(id), s.succeeded) + Sum(Is(id), s.failed) + Sum(Is(id), s.dropped) + Sum(Is(id), s.cleared)
  }

  ghost predicate EachJobOnce(s: State) {
    forall id: nat :: Copies(s, id) == if id < s.submitted then 1 else 0
  }

  lemma {:induction false} CopiesStep(c: Config, s: State, step: Step, id: nat)
    requires Enabled(c, s, step)
    ensures Copies(Next(c, s, step), id)
            == Copies(s, id) + if step.Submit? && id == s.submitted then 1 else 0
  {
    hide Sum, Flag;
    match step
    case Submit(_, _, _) => CopiesSubmit(c, s, step, id);
    case Close =>
    case Clear => CopiesClear(c, s, id);
    case WakeUp(_) => CopiesWakeUp(c, s, step, id);
    case Pop(_, _) => CopiesPop(c, s, step, id);
    case Finish(_, _, _, _) => CopiesFinish(c, s, step, id);
    case _ => CopiesCount(c, s, step, id);
  }

  lemma {:induction false} CopiesSubmit(c: Config, s: State, step: Step, id: nat)
    requires Enabled(c, s, step) && step.Submit?
    ensures Copies(Next(c, s, step), id) == Copies(s, id) + if id == s.submitted then 1 else 0
  {
    hide Sum;
    SumAppend(Is(id), s.queue, NewJob(s, step));
  }

  lemma {:induction false} CopiesClear(c: Config, s: State, id: nat)
    ensures Copies(Next(c, s, Clear), id) == Copies(s, id)
  {
    SumConcat(Is(id), s.cleared, s.queue);
  }

  lemma {:induction false} CopiesWakeUp(c: Config, s: State, step: Step, id: nat)
    requires Enabled(c, s, step) && step.WakeUp?
    ensures Copies(Next(c, s, step), id) == Copies(s, id)
  {
    hide Sum, Flag;
    SumRemove(Is(id), s.sleeping, step.i);
    SumAppend(Is(id), s.queue, s.sleeping[step.i]);
    SumAppend(Is(id), s.dropped, s.sleeping[step.i]);
  }

  /** Counter updates move no job. */
  lemma {:induction false} CopiesCount(c: Config, s: State, step: Step, id: nat)
    requires Enabled(c, s, step) && (step.Begin? || step.CountRetried? || step.CountFailed? || step.CountAverage?)
    ensures Copies(Next(c, s, step), id) == Copies(s, id)
  {
    hide Sum;
    SumUpdate(Carried(id), s.workers, step.w, NextWorker(c, s, step));
  }

  lemma {:induction false} CopiesPop(c: Config, s: State, step: Step, id: nat)
    requires Enabled(c, s, step) && step.Pop?
    ensures Copies(Next(c, s, step), id) == Copies(s, id)
  {
    SumRemove(Is(id), s.queue, step.i);
    SumUpdate(Carried(id), s.workers, step.w, NextWorker(c, s, step));
  }

  lemma {:induction false} CopiesFinish(c: Config, s: State, step: Step, id: nat)
    requires Enabled(c, s, step) && step.Finish?
    ensures Copies(Next(c, s, step), id) == Copies(s, id)
  {
    var job := Attempted(s.workers[step.w].phase.job);
    SumUpdate(Carried(id), s.workers, step.w, NextWorker(c, s, step));
    if step.ok {
      SumAppend(Is(id), s.succeeded, job);
    } else if job.attempts < job.maxAttempts {
      SumAppend(Is(id), s.sleeping, BackedOff(c, job, step.now));
    } else {
      SumAppend(Is(id), s.failed, job);
    }
  }

  // ---------- Attempts, counters and averages ----------

  function Limit(job: Job): int { if job.maxAttempts >= 1 then job.maxAttempts else 1 }

  predicate Waiting(q: seq<Job>) { forall i :: 0 <= i < |q| ==> q[i].attempts < Limit(q[i]) }

  predicate Over(q: seq<Job>) { forall i :: 0 <= i < |q| ==> 1 <= q[i].attempts <= Limit(q[i]) }

  predicate QueuesBounded(s: State) {
    && Waiting(s.queue) && Waiting(s.sleeping) && Waiting(s.dropped) && Waiting(s.cleared)
    && Over(s.succeeded) && Over(s.failed)
  }

  predicate MayTry(x: Worker) {
    x.phase.Popped? || x.phase.Working? ==> x.phase.job.attempts < Limit(x.phase.job)
  }

  predicate WorkersBounded(s: State) {
    forall w :: 0 <= w < |s.workers| ==> MayTry(s.workers[w])
  }

  predicate AttemptsBounded(s: State) { QueuesBounded(s) && WorkersBounded(s) }

  /** Emails counted as processed whose outcome is not counted yet. */
  function OpenCount(x: Worker): nat {
    if x.phase.Working? || x.phase.OwesRetried? || x.phase.OwesFailed? then 1 else 0
  }

  /** The integer rolling average of some durations, as `updateAverageTime` folds them. */
  function RollingAverage(ds: seq<nat>): nat {
    if ds == [] then 0
    else UpdatedAverage(RollingAverage(ds[..|ds| - 1]), |ds|, ds[|ds| - 1])
  }

  predicate WorkerInv(x: Worker) {
    && x.stats.processed == x.stats.successful + x.stats.failed + x.stats.retried + OpenCount(x)
    && |x.durations| == x.stats.processed - (if x.phase.Idle? || x.phase.Popped? then 0 else 1)
    && x.stats.averageTime == RollingAverage(x.durations)
  }

  lemma {:induction false} AveragedKeeps(x: Worker, d: nat)
    requires x.stats.processed == |x.durations| + 1 && x.stats.averageTime == RollingAverage(x.durations)
    ensures Averaged(x, d).stats.averageTime == RollingAverage(Averaged(x, d).durations)
  {
    assert (x.durations + [d])[..|x.durations|] == x.durations;
  }

  lemma {:induction false} WorkerStep(c: Config, s: State, step: Step)
    requires Enabled(c, s, step) && IsWorkerStep(step)
    requires WorkerInv(s.workers[step.w])
    ensures WorkerInv(NextWorker(c, s, step))
  {
    var x := s.workers[step.w];
    if step.Finish? {
      AveragedKeeps(x.(stats := x.stats.(successful := x.stats.successful + 1)), step.duration);
    } else if step.CountAverage? {
      AveragedKeeps(x, x.phase.duration);
    }
  }

  ghost predicate Inv(s: State) {
    && EachJobOnce(s) && AttemptsBounded(s)
    && forall w :: 0 <= w < |s.workers| ==> WorkerInv(s.workers[w])
  }

  lemma {:induction false} AttemptsStep(c: Config, s: State, step: Step)
    requires Enabled(c, s, step) && AttemptsBounded(s)
    ensures AttemptsBounded(Next(c, s, step))
  {
    hide QueuesBounded, WorkersBounded;
    QueuesBoundedStep(c, s, step);
    WorkersBoundedStep(c, s, step);
  }

  lemma {:induction false} QueuesBoundedStep(c: Config, s: State, step: Step)
    requires Enabled(c, s, step) && AttemptsBounded(s)
    ensures QueuesBounded(Next(c, s, step))
  {
  }

  lemma {:induction false} WorkersBoundedStep(c: Config, s: State, step: Step)
    requires Enabled(c, s, step) && AttemptsBounded(s)
    ensures WorkersBounded(Next(c, s, step))
  {
  }

  lemma {:induction false} InvStep(c: Config, s: State, step: Step)
    requires Enabled(c, s, step) && Inv(s)
    ensures Inv(Next(c, s, step))
  {
    hide Copies, AttemptsBounded, WorkerInv;
    AttemptsStep(c, s, step);
    forall id: nat ensures Copies(Next(c, s, step), id) == if id < Next(c, s, step).submitted then 1 else 0 {
      CopiesStep(c, s, step, id);
    }
    if IsWorkerStep(step) {
      WorkerStep(c, s, step);
    }
  }

  lemma {:induction false} InvInit(workerCount: nat)
    ensures Inv(Init(workerCount))
  {
    forall id: nat ensures Copies(Init(workerCount), id) == 0 {
      SumZero(Carried(id), Init(workerCount).workers);
    }
  }

  lemma {:induction false} InvRun(c: Config, s: State, steps: seq<Step>)
    requires IsRun(c, s, steps) && Inv(s)
    ensures Inv(Run(c, s, steps))
    decreases |steps|
  {
    if steps != [] {
      InvStep(c, s, steps[0]);
      InvRun(c, Next(c, s, steps[0]), steps[1..]);
    }
  }

  lemma {:induction false} ReachableInv(c: Config, s: State)
    requires Reachable(c, s)
    ensures Inv(s)
  {
    var workerCount: nat, steps :|
      IsRun(c, Init(workerCount), steps) && s == Run(c, Init(workerCount), steps);
    InvInit(workerCount);
    InvRun(c, Init(workerCount), steps);
  }

  // ---------- Consequences ----------

  datatype Place = Queued | InWorker | Sleeping | Succeeded | PermanentlyFailed | Dropped | Cleared

  predicate At(s: State, id: nat, p: Place) {
    match p
    case Queued => Holds(HasId(id), s.queue)
    case InWorker => Holds(Carrier(id), s.workers)
    case Sleeping => Holds(HasId(id), s.sleeping)
    case Succeeded => Holds(HasId(id), s.succeeded)
    case PermanentlyFailed => Holds(HasId(id), s.failed)
    case Dropped => Holds(HasId(id), s.dropped)
    case Cleared => Holds(HasId(id), s.cleared)
  }

  lemma {:induction false} PlaceCounts(s: State, id: nat)
    ensures At(s, id, Queued) <==> Sum(Is(id), s.queue) > 0
    ensures At(s, id, InWorker) <==> Sum(Carried(id), s.workers) > 0
    ensures At(s, id, Sleeping) <==> Sum(Is(id), s.sleeping) > 0
    ensures At(s, id, Succeeded) <==> Sum(Is(id), s.succeeded) > 0
    ensures At(s, id, PermanentlyFailed) <==> Sum(Is(id), s.failed) > 0
    ensures At(s, id, Dropped) <==> Sum(Is(id), s.dropped) > 0
    ensures At(s, id, Cleared) <==> Sum(Is(id), s.cleared) > 0
    ensures 0 <= Sum(Is(id), s.queue) && 0 <= Sum(Carried(id), s.workers) && 0 <= Sum(Is(id), s.sleeping)
    ensures 0 <= Sum(Is(id), s.succeeded) && 0 <= Sum(Is(id), s.failed) && 0 <= Sum(Is(id), s.dropped)
    ensures 0 <= Sum(Is(id), s.cleared)
  {
    hide Holds, Flag, Sum;
    FlagSum(HasId(id), s.queue);
    FlagSum(Carrier(id), s.workers);
    FlagSum(HasId(id), s.sleeping);
    FlagSum(HasId(id), s.succeeded);
    FlagSum(HasId(id), s.failed);
    FlagSum(HasId(id), s.dropped);
    FlagSum(HasId(id), s.cleared);
  }

  /** In every reachable state a submitted job is in one place and in no other. */
  lemma {:induction false} ExactlyOnePlace(c: Config, s: State, id: nat)
    requires Reachable(c, s)
    ensures id < s.submitted ==> exists p :: At(s, id, p) && forall q :: At(s, id, q) ==> q == p
    ensures id >= s.submitted ==> forall q :: !At(s, id, q)
  {
    hide At;
    ReachableInv(c, s);
    OnePlace(s, id);
  }

  lemma {:induction false} OnePlace(s: State, id: nat)
    requires EachJobOnce(s)
    ensures id < s.submitted ==> exists p :: At(s, id, p) && forall q :: At(s, id, q) ==> q == p
    ensures id >= s.submitted ==> forall q :: !At(s, id, q)
  {
    hide At, Sum, Is, Carried;
    assert Copies(s, id) == if id < s.submitted then 1 else 0;
    PlaceCounts(s, id);
    if id < s.submitted {
      var p :=
        if At(s, id, Queued) then Queued
        else if At(s, id, InWorker) then InWorker
        else if At(s, id, Sleeping) then Sleeping
        else if At(s, id, Succeeded) then Succeeded
        else if At(s, id, PermanentlyFailed) then PermanentlyFailed
        else if At(s, id, Dropped) then Dropped
        else Cleared;
      assert At(s, id, p);
    } else {
      forall q ensures !At(s, id, q) {
        match q
        case Queued => case InWorker => case Sleeping => case Succeeded =>
        case PermanentlyFailed => case Dropped => case Cleared =>
      }
    }
  }

  lemma {:induction false} FinishedGrows(c: Config, s: State, steps: seq<Step>)
    requires IsRun(c, s, steps)
    ensures s.succeeded <= Run(c, s, steps).succeeded && s.failed <= Run(c, s, steps).failed
    ensures s.dropped <= Run(c, s, steps).dropped && s.cleared <= Run(c, s, steps).cleared
    ensures s.closed ==> Run(c, s, steps).closed
    decreases |steps|
  {
    if steps != [] {
      FinishedGrows(c, Next(c, s, steps[0]), steps[1..]);
    }
  }

  /** A job that succeeded is never again in the queue, a worker or a back-off sleep. */
  lemma {:induction false} NeverRequeuedAfterSuccess(c: Config, s: State, steps: seq<Step>, id: nat)
    requires Reachable(c, s) && IsRun(c, s, steps) && At(s, id, Succeeded)
    ensures At(Run(c, s, steps), id, Succeeded)
    ensures forall p :: At(Run(c, s, steps), id, p) ==> p == Succeeded
  {
    ReachableInv(c, s);
    InvRun(c, s, steps);
    FinishedGrows(c, s, steps);
    var t := Run(c, s, steps);
    var i :| 0 <= i < |s.succeeded| && s.succeeded[i].id == id;
    assert t.succeeded[i].id == id;
    assert Holds(HasId(id), t.succeeded);
    OnlyPlace(t, id, Succeeded);
  }

  /** Whoever is found in one place is found in no other. */
  lemma {:induction false} OnlyPlace(s: State, id: nat, p: Place)
    requires EachJobOnce(s) && At(s, id, p)
    ensures forall q :: At(s, id, q) ==> q == p
  {
    hide At;
    OnePlace(s, id);
  }

  predicate JobAt(s: State, j: Job) {
    j in s.queue || j in s.sleeping || j in s.succeeded || j in s.failed || j in s.dropped || j in s.cleared
    || exists w :: 0 <= w < |s.workers| && (s.workers[w].phase == Popped(j) || s.workers[w].phase == Working(j))
  }

  /** The jobs of a state are those in its places. */
  lemma {:induction false} JobsInPlaces(s: State, id: nat)
    ensures (exists p :: At(s, id, p)) <==> exists j :: JobAt(s, j) && j.id == id
  {
    if j :| JobAt(s, j) && j.id == id {
      JobInPlace(s, j);
    }
    if p :| At(s, id, p) {
      PlaceHasJob(s, id, p);
    }
  }

  lemma {:induction false} InQueue(q: seq<Job>, id: nat)
    ensures Holds(HasId(id), q) <==> exists j :: j in q && j.id == id
  {
    if i :| 0 <= i < |q| && HasId(id)(q[i]) {
      assert q[i] in q;
    }
    if j :| j in q && j.id == id {
      var i :| 0 <= i < |q| && q[i] == j;
      assert HasId(id)(q[i]);
    }
  }

  lemma {:induction false} JobInPlace(s: State, j: Job)
    requires JobAt(s, j)
    ensures exists p :: At(s, j.id, p)
  {
    hide Holds;
    InQueue(s.queue, j.id);
    InQueue(s.sleeping, j.id);
    InQueue(s.succeeded, j.id);
    InQueue(s.failed, j.id);
    InQueue(s.dropped, j.id);
    InQueue(s.cleared, j.id);
    if w :| 0 <= w < |s.workers| && (s.workers[w].phase == Popped(j) || s.workers[w].phase == Working(j)) {
      CarriedBy(s, w, j.id);
    }
    assert At(s, j.id, Queued) || At(s, j.id, Sleeping) || At(s, j.id, Succeeded) || At(s, j.id, PermanentlyFailed)
           || At(s, j.id, Dropped) || At(s, j.id, Cleared) || At(s, j.id, InWorker);
  }

  lemma {:induction false} CarriedBy(s: State, w: nat, id: nat)
    requires w < |s.workers| && Carries(s.workers[w], id)
    ensures Holds(Carrier(id), s.workers)
  {
    assert Carrier(id)(s.workers[w]);
  }

  lemma {:induction false} PlaceHasJob(s: State, id: nat, p: Place)
    requires At(s, id, p)
    ensures exists j :: JobAt(s, j) && j.id == id
  {
    InQueue(s.queue, id);
    InQueue(s.sleeping, id);
    InQueue(s.succeeded, id);
    InQueue(s.failed, id);
    InQueue(s.dropped, id);
    InQueue(s.cleared, id);
    if p.InWorker? {
      var w :| 0 <= w < |s.workers| && Carrier(id)(s.workers[w]);
      assert JobAt(s, s.workers[w].phase.job);
    } else {
      var q := match p
        case Queued => s.queue
        case Sleeping => s.sleeping
        case Succeeded => s.succeeded
        case PermanentlyFailed => s.failed
        case Dropped => s.dropped
        case _ => s.cleared;
      var j :| j in q && j.id == id;
      assert JobAt(s, j);
    }
  }

  /** Each job is attempted at most max(1, MaxAttempts) times. */
  lemma {:induction false} AttemptLimit(c: Config, s: State, j: Job)
    requires Reachable(c, s) && JobAt(s, j)
    ensures j.attempts <= if j.maxAttempts >= 1 then j.maxAttempts else 1
  {
    ReachableInv(c, s);
  }

  function Processed(): Worker -> int { (x: Worker) => x.stats.processed }
  function Successful(): Worker -> int { (x: Worker) => x.stats.successful }
  function Unsuccessful(): Worker -> int { (x: Worker) => x.stats.failed }
  function Retried(): Worker -> int { (x: Worker) => x.stats.retried }
  function Average(): Worker -> int { (x: Worker) => x.stats.averageTime }
  function Open(): Worker -> int { (x: Worker) => OpenCount(x) }

  function Yes(): bool -> int { Flag((b: bool) => b) }

  /** The pool's report: the summed counters, how many workers there are and run, and the queue's size. */
  datatype PoolStats = PoolStats(totalWorkers: nat, runningWorkers: nat, sums: Stats, queueSize: nat)

  /** `GetPoolStats`: every counter summed over the workers, and the mean of their averages; `running[i]`
      says whether worker i is running. */
  method GetPoolStats(ws: seq<Worker>, running: seq<bool>, queue: seq<Job>) returns (r: PoolStats)
    requires |running| == |ws|
    ensures r.totalWorkers == |ws| && r.runningWorkers == Sum(Yes(), running) && r.queueSize == |queue|
    ensures r.sums.processed == Sum(Processed(), ws) && r.sums.successful == Sum(Successful(), ws)
    ensures r.sums.failed == Sum(Unsuccessful(), ws) && r.sums.retried == Sum(Retried(), ws)
    ensures var total := Sum(Average(), ws);
            total >= 0 && r.sums.averageTime == if ws == [] then 0 else Quotient(total, |ws|)
  {
    var p := Stats(0, 0, 0, 0, 0);
    var runningWorkers: nat := 0;
    for i := 0 to |ws|
      invariant runningWorkers == Sum(Yes(), running[..i])
      invariant p.processed == Sum(Processed(), ws[..i]) && p.successful == Sum(Successful(), ws[..i])
      invariant p.failed == Sum(Unsuccessful(), ws[..i]) && p.retried == Sum(Retried(), ws[..i])
      invariant p.averageTime == Sum(Average(), ws[..i])
    {
      SumsAppend(ws[..i], ws[i]);
      assert ws[..i + 1] == ws[..i] + [ws[i]];
      SumAppend(Yes(), running[..i], running[i]);
      assert running[..i + 1] == running[..i] + [running[i]];
      if running[i] {
        runningWorkers := runningWorkers + 1;
      }
      var st := ws[i].stats;
      p := Stats(p.processed + st.processed, p.successful + st.successful, p.failed + st.failed,
                 p.retried + st.retried, p.averageTime + st.averageTime);
    }
    assert ws[..|ws|] == ws && running[..|ws|] == running;
    if |ws| > 0 {
      p := p.(averageTime := Quotient(p.averageTime, |ws|));
    }
    r := PoolStats(|ws|, runningWorkers, p, |queue|);
  }

  lemma {:induction false} SumsAppend(ws: seq<Worker>, x: Worker)
    ensures Sum(Processed(), ws + [x]) == Sum(Processed(), ws) + x.stats.processed
    ensures Sum(Successful(), ws + [x]) == Sum(Successful(), ws) + x.stats.successful
    ensures Sum(Unsuccessful(), ws + [x]) == Sum(Unsuccessful(), ws) + x.stats.failed
    ensures Sum(Retried(), ws + [x]) == Sum(Retried(), ws) + x.stats.retried
    ensures Sum(Average(), ws + [x]) == Sum(Average(), ws) + x.stats.averageTime
    ensures Sum(Open(), ws + [x]) == Sum(Open(), ws) + OpenCount(x)
  {
    SumAppend(Processed(), ws, x);
    SumAppend(Successful(), ws, x);
    SumAppend(Unsuccessful(), ws, x);
    SumAppend(Retried(), ws, x);
    SumAppend(Average(), ws, x);
    SumAppend(Open(), ws, x);
  }

  lemma {:induction false} SumsBalance(ws: seq<Worker>)
    requires forall w :: 0 <= w < |ws| ==> WorkerInv(ws[w])
    ensures Sum(Processed(), ws)
            == Sum(Successful(), ws) + Sum(Unsuccessful(), ws) + Sum(Retried(), ws) + Sum(Open(), ws)
  {
    if ws != [] {
      var n := |ws| - 1;
      assert ws == ws[..n] + [ws[n]];
      SumsBalance(ws[..n]);
      SumsAppend(ws[..n], ws[n]);
    }
  }

  /** In every reachable state what the pool reports as processed is what it reports as successful,
      failed and retried, plus the emails some worker is still busy with; between jobs, exactly. */
  lemma {:induction false} PoolBalance(c: Config, s: State)
    requires Reachable(c, s)
    ensures var ws := s.workers;
            && Sum(Processed(), ws)
               == Sum(Successful(), ws) + Sum(Unsuccessful(), ws) + Sum(Retried(), ws) + Sum(Open(), ws)
            && ((forall w :: 0 <= w < |ws| ==> OpenCount(ws[w]) == 0) ==> Sum(Open(), ws) == 0)
            && forall w :: 0 <= w < |ws| ==>
                 && ws[w].stats.processed
                    == ws[w].stats.successful + ws[w].stats.failed + ws[w].stats.retried + OpenCount(ws[w])
                 && ws[w].stats.averageTime == RollingAverage(ws[w].durations)
  {
    ReachableInv(c, s);
    SumsBalance(s.workers);
    if forall w :: 0 <= w < |s.workers| ==> OpenCount(s.workers[w]) == 0 {
      SumZero(Open(), s.workers);
    }
  }

  // ---------- The rolling average ----------

  function Total(ds: seq<nat>): nat {
    if ds == [] then 0 else Total(ds[..|ds| - 1]) + ds[|ds| - 1]
  }

  /** The truncation error of r roundings is at most r(r-1)/2, and always downwards; the intermediate
      product never exceeds the true sum, so it cannot overflow where the sum does not. */
  lemma {:induction false} RollingAverageError(ds: seq<nat>)
    ensures 0 <= Total(ds) - |ds| * RollingAverage(ds)
    ensures 2 * (Total(ds) - |ds| * RollingAverage(ds)) <= |ds| * (|ds| - 1)
  {
    if ds != [] {
      var r := |ds|;
      var init, d := ds[..r - 1], ds[r - 1];
      RollingAverageError(init);
      var a, b := RollingAverage(init), RollingAverage(ds);
      if r == 1 {
        assert init == [];
      } else {
        ErrorStep(a, b, d, r, Total(init));
      }
    }
  }

  lemma {:induction false} ErrorStep(a: nat, b: nat, d: nat, r: nat, total: nat)
    requires r > 1 && b == Quotient(a * (r - 1) + d, r)
    requires 0 <= total - (r - 1) * a && 2 * (total - (r - 1) * a) <= (r - 1) * (r - 2)
    ensures 0 <= total + d - r * b && 2 * (total + d - r * b) <= r * (r - 1)
  {
    var p, q, u := (r - 1) * a, r * b, (r - 1) * (r - 2);
    assert a * (r - 1) == p && (b + 1) * r == q + r && r * (r - 1) == u + 2 * (r - 1);
  }

  /** The rolling average lies between the smallest and the largest duration. */
  lemma {:induction false} RollingAverageBetween(ds: seq<nat>, lo: nat, hi: nat)
    requires ds != [] && forall i :: 0 <= i < |ds| ==> lo <= ds[i] <= hi
    ensures lo <= RollingAverage(ds) <= hi
  {
    var r := |ds|;
    if r > 1 {
      RollingAverageBetween(ds[..r - 1], lo, hi);
      var a, b, d := RollingAverage(ds[..r - 1]), RollingAverage(ds), ds[r - 1];
      WeightedMeanBetween(a, d, r, lo, hi, b);
    }
  }

  lemma {:induction false} WeightedMeanBetween(a: nat, d: nat, r: nat, lo: nat, hi: nat, b: nat)
    requires r > 1 && lo <= a <= hi && lo <= d <= hi && b == Quotient(a * (r - 1) + d, r)
    ensures lo <= b <= hi
  {
    var n, x := r - 1, a * (r - 1) + d;
    ScaleBoth(lo, a, n);
    ScaleBoth(a, hi, n);
    calc { lo * r; lo * (n + 1); lo * n + lo; }
    calc { (hi + 1) * r; (hi + 1) * (n + 1); hi * n + hi + n + 1; }
    assert lo * r <= x < (hi + 1) * r;
    CancelFactor(lo, b + 1, r);
    CancelFactor(b, hi + 1, r);
  }
}
