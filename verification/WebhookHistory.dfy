/** What the fields of a webhook job say about the steps of the run that made them. */
module WebhookHistory {
  import opened Basics
  import opened Backoff
  import opened Sums
  import opened WebhookDelivery
  import opened WebhookLaws

  /** The part of a step that concerns one job. */
  datatype Happening =
    | Accepted(now: int)
    | Received(id: nat)
    | Finished(id: nat, requests: nat)
    | Resolved(id: nat, now: int)
    | Silent

  function Event(c: Config, s: State, step: Step): Happening
    requires Enabled(c, s, step)
  {
    match step
    case Accept(now) => Accepted(now)
    case TakeMain(_) => Received(s.main[0].id)
    case TakeRetry(_) => Received(s.retry[0].id)
    case Finish(w, _, requests) => Finished(s.workers[w].job.id, requests)
    case Resolve(w, now) => Resolved(s.workers[w].job.id, now)
    case _ => Silent
  }

  function Trace(c: Config, s: State, steps: seq<Step>): seq<Happening>
    requires IsRun(c, s, steps)
    decreases |steps|
  {
    if steps == [] then [] else [Event(c, s, steps[0])] + Trace(c, Next(c, s, steps[0]), steps[1..])
  }

  /** The times of the Accept steps, in order. */
  function AcceptTimes(h: seq<Happening>): seq<int> {
    if h == [] then []
    else AcceptTimes(h[..|h| - 1]) + if h[|h| - 1].Accepted? then [h[|h| - 1].now] else []
  }

  /** How often a worker received the job. */
  function Receipts(h: seq<Happening>, id: nat): nat {
    if h == [] then 0 else Receipts(h[..|h| - 1], id) + if h[|h| - 1] == Received(id) then 1 else 0
  }

  /** The HTTP requests made for the job. */
  function Requests(h: seq<Happening>, id: nat): nat {
    if h == [] then 0
    else
      Requests(h[..|h| - 1], id)
      + if h[|h| - 1].Finished? && h[|h| - 1].id == id then h[|h| - 1].requests else 0
  }

  /** When the job's latest failure was handled. */
  function LastFailure(h: seq<Happening>, id: nat): Option<int> {
    if h == [] then None
    else if h[|h| - 1].Resolved? && h[|h| - 1].id == id then Some(h[|h| - 1].now)
    else LastFailure(h[..|h| - 1], id)
  }

  predicate Matches(c: Config, h: seq<Happening>, j: Job) {
    && j.id < |AcceptTimes(h)| && j.createdAt == AcceptTimes(h)[j.id] && j.maxRetries == c.maxRetries
    && j.attempts == Receipts(h, j.id) && j.requests == Requests(h, j.id)
  }

  ghost predicate AllMatch(c: Config, h: seq<Happening>, s: State) { forall j :: JobAt(s, j) ==> Matches(c, h, j) }

  predicate Awaits(s: State, j: Job) { j in s.retry || j in s.retryJobs || j in s.kept }

  predicate Scheduled(h: seq<Happening>, j: Job) {
    LastFailure(h, j.id).Some? && j.nextRetryAt == LastFailure(h, j.id).value + RetryDelay(j.attempts)
  }

  ghost predicate AllScheduled(h: seq<Happening>, s: State) { forall j :: Awaits(s, j) ==> Scheduled(h, j) }

  ghost predicate NothingElse(h: seq<Happening>, s: State) {
    |AcceptTimes(h)| == s.accepted
    && forall id: nat :: id >= s.accepted ==> Receipts(h, id) == 0 && Requests(h, id) == 0
  }

  ghost predicate History(c: Config, h: seq<Happening>, s: State) {
    AllMatch(c, h, s) && AllScheduled(h, s) && NothingElse(h, s)
  }

  lemma {:induction false} Append(h: seq<Happening>, e: Happening, id: nat)
    ensures AcceptTimes(h + [e]) == AcceptTimes(h) + if e.Accepted? then [e.now] else []
    ensures Receipts(h + [e], id) == Receipts(h, id) + if e == Received(id) then 1 else 0
    ensures Requests(h + [e], id) == Requests(h, id) + if e.Finished? && e.id == id then e.requests else 0
    ensures LastFailure(h + [e], id) == if e.Resolved? && e.id == id then Some(e.now) else LastFailure(h, id)
  {
    assert (h + [e])[..|h|] == h;
  }

  // ---------- An identity determines the job ----------

  function Exactly(j: Job): Job -> bool { (x: Job) => x == j }

  function Holding(j: Job): Worker -> bool { (x: Worker) => (x.Sending? || x.Failed?) && x.job == j }

  lemma {:induction false} TwoCounted<T>(p: T -> bool, q: T -> bool, r: T -> bool, s: seq<T>)
    requires forall x :: (p(x) ==> r(x)) && (q(x) ==> r(x)) && !(p(x) && q(x))
    ensures Sum(Flag(p), s) + Sum(Flag(q), s) <= Sum(Flag(r), s)
  {
    if s != [] {
      TwoCounted(p, q, r, s[1..]);
    }
  }

  function Copies(j: Job, s: State): int {
    Sum(Flag(Exactly(j)), s.main) + Sum(Flag(Exactly(j)), s.retry) + Sum(Flag(Exactly(j)), s.retryJobs)
    + Sum(Flag(Exactly(j)), s.kept) + Sum(Flag(Holding(j)), s.workers)
    + Sum(Flag(Exactly(j)), s.acked) + Sum(Flag(Exactly(j)), s.abandoned)
  }

  lemma {:induction false} CountedQueue(q: seq<Job>, j: Job)
    ensures 0 <= Sum(Flag(Exactly(j)), q) && (j in q ==> 1 <= Sum(Flag(Exactly(j)), q))
  {
    FlagSum(Exactly(j), q);
    if j in q {
      assert Holds(Exactly(j), q);
    }
  }

  lemma {:induction false} CountedWorkers(ws: seq<Worker>, j: Job)
    ensures 0 <= Sum(Flag(Holding(j)), ws)
    ensures Sending(j) in ws || Failed(j) in ws ==> 1 <= Sum(Flag(Holding(j)), ws)
  {
    FlagSum(Holding(j), ws);
    if Sending(j) in ws || Failed(j) in ws {
      assert Holds(Holding(j), ws);
    }
  }

  lemma {:induction false} Counted(s: State, j: Job)
    requires JobAt(s, j)
    ensures Copies(j, s) >= 1
  {
    hide Sum;
    CountedQueue(s.main, j);
    CountedQueue(s.retry, j);
    CountedQueue(s.retryJobs, j);
    CountedQueue(s.kept, j);
    CountedQueue(s.acked, j);
    CountedQueue(s.abandoned, j);
    CountedWorkers(s.workers, j);
  }

  lemma {:induction false} CopiesAddUp(s: State, j: Job, k: Job)
    requires j.id == k.id && j != k
    ensures Copies(j, s) + Copies(k, s) <= Total(CountOf(j.id), s)
  {
    hide Sum;
    TwoCounted(Exactly(j), Exactly(k), HasId(j.id), s.main);
    TwoCounted(Exactly(j), Exactly(k), HasId(j.id), s.retry);
    TwoCounted(Exactly(j), Exactly(k), HasId(j.id), s.retryJobs);
    TwoCounted(Exactly(j), Exactly(k), HasId(j.id), s.kept);
    TwoCounted(Exactly(j), Exactly(k), HasId(j.id), s.acked);
    TwoCounted(Exactly(j), Exactly(k), HasId(j.id), s.abandoned);
    TwoCounted(Holding(j), Holding(k), Carrier(j.id), s.workers);
  }

  lemma {:induction false} SameIdSameJob(s: State, j: Job, k: Job)
    requires EachJobOnce(s) && JobAt(s, j) && JobAt(s, k) && j.id == k.id
    ensures j == k
  {
    hide Copies, Total;
    if j != k {
      Counted(s, j);
      Counted(s, k);
      CopiesAddUp(s, j, k);
    }
  }

  // ---------- Every step keeps the history ----------

  predicate Touches(step: Step) {
    step.Accept? || step.TakeMain? || step.TakeRetry? || step.Finish? || step.Resolve?
  }

  /** The job a step works on, before and after. */
  function Before(c: Config, s: State, step: Step): Job
    requires Enabled(c, s, step) && Touches(step) && !step.Accept?
  {
    match step
    case TakeMain(_) => s.main[0]
    case TakeRetry(_) => s.retry[0]
    case Finish(w, _, _) => s.workers[w].job
    case Resolve(w, _) => s.workers[w].job
  }

  function Afterwards(c: Config, s: State, step: Step): Job
    requires Enabled(c, s, step) && Touches(step)
  {
    match step
    case Accept(now) => NewJob(c, s, now)
    case TakeMain(_) => Begun(s.main[0])
    case TakeRetry(_) => Begun(s.retry[0])
    case Finish(w, _, requests) => Sent(s.workers[w].job, requests)
    case Resolve(w, now) =>
      var job := s.workers[w].job;
      if Retryable(c, job, now) && |s.retry| < Slots(c) then Rescheduled(job, now) else job
  }

  lemma {:induction false} OldOrTouched(c: Config, s: State, step: Step, j: Job)
    requires Enabled(c, s, step) && JobAt(Next(c, s, step), j)
    ensures JobAt(s, j) || (Touches(step) && j == Afterwards(c, s, step))
  {
  }

  lemma {:induction false} TouchedIsThere(c: Config, s: State, step: Step)
    requires Enabled(c, s, step) && Touches(step)
    ensures JobAt(Next(c, s, step), Afterwards(c, s, step))
    ensures !step.Accept? ==> JobAt(s, Before(c, s, step))
  {
    var t := Next(c, s, step);
    var j := Afterwards(c, s, step);
    match step {
      case Accept(_) => assert t.main[|s.main|] == j;
      case TakeMain(w) => assert t.workers[w] == Sending(j);
      case TakeRetry(w) => assert t.workers[w] == Sending(j);
      case Finish(w, ok, _) =>
        assert if ok then t.acked[|s.acked|] == j else t.workers[w] == Failed(j);
      case Resolve(w, now) =>
        assert if Retryable(c, s.workers[w].job, now) && |s.retry| < Slots(c)
               then t.retry[|s.retry|] == j else t.abandoned[|s.abandoned|] == j;
    }
  }

  lemma {:induction false} TouchedMatches(c: Config, h: seq<Happening>, s: State, step: Step)
    requires Enabled(c, s, step) && Touches(step) && NothingElse(h, s)
    requires !step.Accept? ==> Matches(c, h, Before(c, s, step))
    ensures Matches(c, h + [Event(c, s, step)], Afterwards(c, s, step))
  {
    Append(h, Event(c, s, step), Afterwards(c, s, step).id);
  }

  lemma {:induction false} OthersMatch(c: Config, h: seq<Happening>, s: State, step: Step, j: Job)
    requires Enabled(c, s, step) && Matches(c, h, j)
    requires Touches(step) ==> j.id != Afterwards(c, s, step).id
    ensures Matches(c, h + [Event(c, s, step)], j)
  {
    Append(h, Event(c, s, step), j.id);
  }

  lemma {:induction false} AllMatchStep(c: Config, h: seq<Happening>, s: State, step: Step)
    requires Enabled(c, s, step) && EachJobOnce(s) && AllMatch(c, h, s) && NothingElse(h, s)
    ensures AllMatch(c, h + [Event(c, s, step)], Next(c, s, step))
  {
    hide Matches, NothingElse, EachJobOnce, Event, Afterwards, Before, Enabled, Next, JobAt;
    var t := Next(c, s, step);
    EachJobOnceStep(c, s, step);
    if Touches(step) {
      TouchedIsThere(c, s, step);
      TouchedMatches(c, h, s, step);
    }
    forall j | JobAt(t, j) ensures Matches(c, h + [Event(c, s, step)], j) {
      OldOrTouched(c, s, step, j);
      if Touches(step) && j.id == Afterwards(c, s, step).id {
        SameIdSameJob(t, j, Afterwards(c, s, step));
      } else {
        OthersMatch(c, h, s, step, j);
      }
    }
  }

  lemma {:induction false} NothingElseStep(c: Config, h: seq<Happening>, s: State, step: Step)
    requires Enabled(c, s, step) && AllMatch(c, h, s) && NothingElse(h, s)
    ensures NothingElse(h + [Event(c, s, step)], Next(c, s, step))
  {
    var e := Event(c, s, step);
    if Touches(step) {
      TouchedIsThere(c, s, step);
    }
    Append(h, e, 0);
    forall id: nat | id >= Next(c, s, step).accepted ensures Receipts(h + [e], id) == 0 && Requests(h + [e], id) == 0 {
      Append(h, e, id);
    }
  }

  lemma {:induction false} AwaitsStep(c: Config, s: State, step: Step, j: Job)
    requires Enabled(c, s, step) && Awaits(Next(c, s, step), j)
    ensures Awaits(s, j) || (step.Resolve? && j == Rescheduled(s.workers[step.w].job, step.now))
  {
  }

  lemma {:induction false} AwaitingIsThere(s: State, j: Job)
    requires Awaits(s, j)
    ensures JobAt(s, j)
  {
  }

  lemma {:induction false} AllScheduledStep(c: Config, h: seq<Happening>, s: State, step: Step)
    requires Enabled(c, s, step) && EachJobOnce(s) && AllScheduled(h, s)
    ensures AllScheduled(h + [Event(c, s, step)], Next(c, s, step))
  {
    var t, e := Next(c, s, step), Event(c, s, step);
    EachJobOnceStep(c, s, step);
    hide EachJobOnce, JobAt, Awaits, Next;
    forall j | Awaits(t, j) ensures Scheduled(h + [e], j) {
      AwaitsStep(c, s, step, j);
      AwaitingIsThere(t, j);
      Append(h, e, j.id);
      if step.Resolve? {
        TouchedIsThere(c, s, step);
        if j.id == Afterwards(c, s, step).id {
          SameIdSameJob(t, j, Afterwards(c, s, step));
          ResolvedAwaits(c, s, step);
        }
      }
    }
  }

  /** A job given up is not waiting for a retry. */
  lemma {:induction false} ResolvedAwaits(c: Config, s: State, step: Step)
    requires Enabled(c, s, step) && step.Resolve? && EachJobOnce(Next(c, s, step))
    ensures Awaits(Next(c, s, step), Afterwards(c, s, step))
            ==> Afterwards(c, s, step) == Rescheduled(s.workers[step.w].job, step.now)
  {
    var t, j := Next(c, s, step), s.workers[step.w].job;
    if !(Retryable(c, j, step.now) && |s.retry| < Slots(c)) {
      assert t.abandoned[|s.abandoned|] == j;
      assert Holds(HasId(j.id), t.abandoned);
      assert At(t, j.id, Abandoned);
      OnePlace(t, j.id);
      AwaitingIsAt(t, j);
    }
  }

  lemma {:induction false} AwaitingIsAt(s: State, j: Job)
    ensures Awaits(s, j) ==> At(s, j.id, RetryQueue) || At(s, j.id, RetrySlice)
  {
    if Awaits(s, j) {
      assert Holds(HasId(j.id), s.retry) || Holds(HasId(j.id), s.retryJobs) || Holds(HasId(j.id), s.kept);
    }
  }

  lemma {:induction false} HistoryStep(c: Config, h: seq<Happening>, s: State, step: Step)
    requires Enabled(c, s, step) && EachJobOnce(s) && History(c, h, s)
    ensures History(c, h + [Event(c, s, step)], Next(c, s, step))
  {
    hide AllMatch, AllScheduled, NothingElse, EachJobOnce, Event, Next;
    AllMatchStep(c, h, s, step);
    AllScheduledStep(c, h, s, step);
    NothingElseStep(c, h, s, step);
  }

  lemma {:induction false} HistoryRun(c: Config, past: seq<Happening>, s: State, steps: seq<Step>)
    requires IsRun(c, s, steps) && EachJobOnce(s) && History(c, past, s)
    ensures History(c, past + Trace(c, s, steps), Run(c, s, steps))
    decreases |steps|
  {
    if steps == [] {
      assert past + [] == past;
    } else {
      hide History, EachJobOnce, Event, Next;
      var e, t := Event(c, s, steps[0]), Next(c, s, steps[0]);
      EachJobOnceStep(c, s, steps[0]);
      HistoryStep(c, past, s, steps[0]);
      HistoryRun(c, past + [e], t, steps[1..]);
      assert past + [e] + Trace(c, t, steps[1..]) == past + ([e] + Trace(c, t, steps[1..]));
    }
  }

  lemma {:induction false} HistoryOfRun(c: Config, workerCount: nat, steps: seq<Step>)
    requires IsRun(c, Init(workerCount), steps)
    ensures History(c, Trace(c, Init(workerCount), steps), Run(c, Init(workerCount), steps))
  {
    EachJobOnceInit(workerCount);
    var h := Trace(c, Init(workerCount), steps);
    HistoryRun(c, [], Init(workerCount), steps);
    assert [] + h == h;
  }

  // ---------- What a job's fields mean ----------

  /** The times at which a run's Accept steps happen, read off the steps alone. */
  function TimesOf(steps: seq<Step>): seq<int> {
    if steps == [] then [] else (if steps[0].Accept? then [steps[0].now] else []) + TimesOf(steps[1..])
  }

  lemma {:induction false} ConcatTimes(a: seq<Happening>, b: seq<Happening>)
    ensures AcceptTimes(a + b) == AcceptTimes(a) + AcceptTimes(b)
  {
    if b == [] {
      assert a + b == a;
    } else {
      var n := |b| - 1;
      assert a + b == (a + b[..n]) + [b[n]];
      ConcatTimes(a, b[..n]);
      Append(a + b[..n], b[n], 0);
    }
  }

  lemma {:induction false} TraceTimes(c: Config, s: State, steps: seq<Step>)
    requires IsRun(c, s, steps)
    ensures AcceptTimes(Trace(c, s, steps)) == TimesOf(steps)
    decreases |steps|
  {
    if steps != [] {
      var e := Event(c, s, steps[0]);
      TraceTimes(c, Next(c, s, steps[0]), steps[1..]);
      ConcatTimes([e], Trace(c, Next(c, s, steps[0]), steps[1..]));
      Append([], e, 0);
      assert [] + [e] == [e];
    }
  }

  /** Over every run, each job anywhere carries the time of the Accept step whose ordinal it bears, the
      number of times it was received, and the number of requests made for it. */
  lemma {:induction false} FieldsAreHistory(c: Config, workerCount: nat, steps: seq<Step>, j: Job)
    requires IsRun(c, Init(workerCount), steps) && JobAt(Run(c, Init(workerCount), steps), j)
    ensures var h := Trace(c, Init(workerCount), steps);
            && j.id < |TimesOf(steps)| && j.createdAt == TimesOf(steps)[j.id] && j.maxRetries == c.maxRetries
            && j.attempts == Receipts(h, j.id) && j.requests == Requests(h, j.id)
  {
    HistoryOfRun(c, workerCount, steps);
    TraceTimes(c, Init(workerCount), steps);
  }

  /** A failed job goes to the retry channel exactly when it was received fewer than maxRetries times,
      was accepted less than maxRetryAge ago, and the channel has room; otherwise it is given up. */
  lemma {:induction false} FailureDecision(c: Config, workerCount: nat, steps: seq<Step>, w: nat, now: int)
    requires IsRun(c, Init(workerCount), steps)
    requires w < |Run(c, Init(workerCount), steps).workers| && Run(c, Init(workerCount), steps).workers[w].Failed?
    ensures var s := Run(c, Init(workerCount), steps); var t := Next(c, s, Resolve(w, now));
            var j := s.workers[w].job; var received := Receipts(Trace(c, Init(workerCount), steps), j.id);
            j.id < |TimesOf(steps)|
            && if received < c.maxRetries && now - TimesOf(steps)[j.id] < c.maxRetryAge
                  && |s.retry| < (if c.bufferSize == 0 then 1 else c.bufferSize)
               then t.retry == s.retry + [j.(nextRetryAt := now + RetryDelay(received))] && t.abandoned == s.abandoned
               else t.abandoned == s.abandoned + [j] && t.retry == s.retry
  {
    var s := Run(c, Init(workerCount), steps);
    assert Failed(s.workers[w].job) in s.workers;
    FieldsAreHistory(c, workerCount, steps, s.workers[w].job);
  }

  /** The retry timer promotes no job before its back-off after its latest failure is over. */
  lemma {:induction false} NoEarlyPromotion(c: Config, workerCount: nat, steps: seq<Step>)
    requires IsRun(c, Init(workerCount), steps)
    requires var s := Run(c, Init(workerCount), steps); s.tick.Scanning? && s.retryJobs != [] && Promotes(c, s)
    ensures var s := Run(c, Init(workerCount), steps); var h := Trace(c, Init(workerCount), steps);
            var id := s.retryJobs[0].id;
            LastFailure(h, id).Some? && LastFailure(h, id).value + RetryDelay(Receipts(h, id)) <= s.tick.now
  {
    var s := Run(c, Init(workerCount), steps);
    HistoryOfRun(c, workerCount, steps);
    assert Awaits(s, s.retryJobs[0]) && JobAt(s, s.retryJobs[0]);
  }

  lemma {:induction false} NotHandledTrace(c: Config, s: State, steps: seq<Step>, id: nat)
    requires IsRun(c, s, steps) && NeverHandled(c, s, steps, id)
    ensures forall e :: e in Trace(c, s, steps) ==> e != Received(id) && (e.Finished? ==> e.id != id)
    decreases |steps|
  {
    if steps != [] {
      NotHandledTrace(c, Next(c, s, steps[0]), steps[1..], id);
    }
  }

  /** Once a job was acknowledged or abandoned, no worker receives it and no request is made for it, in
      any continuation. */
  lemma {:induction false} NeverReceivedAgain(c: Config, s: State, steps: seq<Step>, j: Job)
    requires Reachable(c, s) && IsRun(c, s, steps) && (j in s.acked || j in s.abandoned)
    ensures forall e :: e in Trace(c, s, steps) ==> e != Received(j.id) && (e.Finished? ==> e.id != j.id)
  {
    assert Holds(HasId(j.id), s.acked) || Holds(HasId(j.id), s.abandoned);
    NeverSentAgain(c, s, steps, j.id);
    NotHandledTrace(c, s, steps, j.id);
  }

  predicate AckedWereSent(s: State) { forall j :: j in s.acked ==> j.requests >= 1 }

  lemma {:induction false} AckedWereSentRun(c: Config, s: State, steps: seq<Step>)
    requires IsRun(c, s, steps) && AckedWereSent(s)
    ensures AckedWereSent(Run(c, s, steps))
    decreases |steps|
  {
    if steps != [] {
      AckedWereSentRun(c, Next(c, s, steps[0]), steps[1..]);
    }
  }

  /** No job is acknowledged without a request. */
  lemma {:induction false} AcknowledgedWasSent(c: Config, workerCount: nat, steps: seq<Step>, j: Job)
    requires IsRun(c, Init(workerCount), steps) && j in Run(c, Init(workerCount), steps).acked
    ensures Requests(Trace(c, Init(workerCount), steps), j.id) >= 1
  {
    AckedWereSentRun(c, Init(workerCount), steps);
    FieldsAreHistory(c, workerCount, steps, j);
  }

  /** The back-off in nanoseconds: 1s, 2s, 4s, 8s, 16s, then 30s until the shift overflows. */
  lemma {:induction false} RetryDelayValues(n: nat)
    ensures RetryDelay(1) == 1_000_000_000 && RetryDelay(2) == 2_000_000_000 && RetryDelay(3) == 4_000_000_000
    ensures RetryDelay(4) == 8_000_000_000 && RetryDelay(5) == 16_000_000_000
    ensures 6 <= n <= 34 ==> RetryDelay(n) == 30_000_000_000
  {
    assert Pow(2, 0) == 1 && Pow(2, 1) == 2 && Pow(2, 2) == 4 && Pow(2, 3) == 8 && Pow(2, 4) == 16;
    if 6 <= n <= 34 {
      DelayIsCapped(n);
    }
  }

  lemma {:induction false} DelayIsCapped(n: nat)
    requires 6 <= n <= 34
    ensures RetryDelay(n) == 30_000_000_000
  {
    assert Pow(2, 5) == 32 && Pow(2, 3) == 8 && Pow(2, 6) == 64;
    PowAdd(2, 3, 6);
    PowAdd(2, 24, 9);
    PowValues();
    PowMonotone(2, 5, n - 1);
    PowMonotone(2, n - 1, 33);
    CappedDelayExact(SECOND, n, 30 * SECOND);
  }
}
