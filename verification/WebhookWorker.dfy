/** The worker object itself: its channels, slice and counters, changed in place by its methods.
    Every method is a run of protocol steps, so the laws about runs hold of the object. */
module WebhookWorker {
  import opened WebhookDelivery
  import opened HttpClient

  /** The jobs one timer pass promotes, in order: the due ones, as many as the main channel has room for. */
  function Promoted(q: seq<Job>, now: int, room: int): seq<Job> {
    if q == [] then []
    else if q[0].nextRetryAt <= now && room > 0 then [q[0]] + Promoted(q[1..], now, room - 1)
    else Promoted(q[1..], now, room)
  }

  function Remaining(q: seq<Job>, now: int, room: int): seq<Job> {
    if q == [] then []
    else if q[0].nextRetryAt <= now && room > 0 then Remaining(q[1..], now, room - 1)
    else [q[0]] + Remaining(q[1..], now, room)
  }

  function DueCount(q: seq<Job>, now: int): nat {
    if q == [] then 0 else (if q[0].nextRetryAt <= now then 1 else 0) + DueCount(q[1..], now)
  }

  /** A pass loses nothing, promotes only due jobs, and promotes as many of them as fit. */
  lemma {:induction false} PassPartitions(q: seq<Job>, now: int, room: int)
    requires room >= 0
    ensures multiset(Promoted(q, now, room)) + multiset(Remaining(q, now, room)) == multiset(q)
    ensures forall j :: j in Promoted(q, now, room) ==> j.nextRetryAt <= now
    ensures |Promoted(q, now, room)| == if DueCount(q, now) <= room then DueCount(q, now) else room
  {
    if q != [] {
      assert q == [q[0]] + q[1..];
      var fits := q[0].nextRetryAt <= now && room > 0;
      PassPartitions(q[1..], now, if fits then room - 1 else room);
    }
  }

  /** Where a pass in progress ends if nothing interferes. */
  function PassResult(c: Config, s: State): State
    requires s.tick.Scanning? && |s.main| <= Slots(c)
  {
    var room := Slots(c) - |s.main|;
    var p := Promoted(s.retryJobs, s.tick.now, room);
    var st := s.stats;
    s.(main := s.main + p, retryJobs := s.kept + Remaining(s.retryJobs, s.tick.now, room), kept := [],
       tick := NoTick,
       stats := st.(pendingRetries := st.pendingRetries - |p|, queueSize := st.queueSize + |p|))
  }

  /** The state after one iteration of the pass and, if it promoted, its counter update. */
  function AfterScan(c: Config, s: State): State
    requires Enabled(c, s, Scan)
  {
    var s1 := Next(c, s, Scan);
    if Promotes(c, s) then Next(c, s1, CountPromotion) else s1
  }

  lemma {:induction false} PassResultAfterScan(c: Config, s: State)
    requires Enabled(c, s, Scan) && |s.main| <= Slots(c)
    ensures |AfterScan(c, s).main| <= Slots(c) && AfterScan(c, s).tick == s.tick
    ensures AfterScan(c, s).retryJobs == s.retryJobs[1..]
    ensures PassResult(c, AfterScan(c, s)) == PassResult(c, s)
  {
    var job, rest, now, room := s.retryJobs[0], s.retryJobs[1..], s.tick.now, Slots(c) - |s.main|;
    if Promotes(c, s) {
      assert (s.main + [job]) + Promoted(rest, now, room - 1) == s.main + ([job] + Promoted(rest, now, room - 1));
    } else {
      assert (s.kept + [job]) + Remaining(rest, now, room) == s.kept + ([job] + Remaining(rest, now, room));
    }
  }

  lemma {:induction false} PassEnd(c: Config, s: State)
    requires s.tick.Scanning? && s.retryJobs == [] && |s.main| <= Slots(c)
    ensures PassResult(c, s) == s.(retryJobs := s.kept, kept := [], tick := NoTick)
  {
  }

  /** A whole pass is a run of the protocol. */
  lemma {:induction false} PassIsRun(c: Config, s: State) returns (steps: seq<Step>)
    requires s.tick.Scanning? && |s.main| <= Slots(c)
    ensures IsRun(c, s, steps) && Run(c, s, steps) == PassResult(c, s)
    decreases |s.retryJobs|
  {
    if s.retryJobs == [] {
      steps := [EndTick];
      RunOne(c, s, EndTick);
    } else {
      PassResultAfterScan(c, s);
      var rest := PassIsRun(c, AfterScan(c, s));
      if Promotes(c, s) {
        steps := [Scan] + ([CountPromotion] + rest);
        assert steps[1..] == [CountPromotion] + rest && ([CountPromotion] + rest)[1..] == rest;
        assert IsRun(c, Next(c, s, Scan), [CountPromotion] + rest);
      } else {
        steps := [Scan] + rest;
        assert steps[1..] == rest;
      }
    }
  }

  /** From the timer's firing on. */
  lemma {:induction false} TickIsRun(c: Config, s: State, now: int) returns (steps: seq<Step>)
    requires s.tick.NoTick? && |s.main| <= Slots(c)
    ensures IsRun(c, s, steps) && Run(c, s, steps) == PassResult(c, s.(tick := Scanning(now)))
    ensures steps != [] && steps[0] == StartTick(now)
  {
    var rest := PassIsRun(c, s.(tick := Scanning(now)));
    steps := [StartTick(now)] + rest;
    assert steps[1..] == rest;
  }

  class AsyncWebhookWorker {
    const config: Config
    var webhookQueue: seq<Job>
    var retryQueue: seq<Job>
    var retryJobs: seq<Job>
    var remaining: seq<Job>
    var tick: Tick
    var workers: seq<Worker>
    var owedAccepts: nat
    var stats: Stats
    var acked: seq<Job>
    var abandoned: seq<Job>
    var accepted: nat
    var taken: nat

    function View(): State
      reads this
    {
      State(webhookQueue, retryQueue, retryJobs, remaining, tick, workers, owedAccepts, stats,
            acked, abandoned, accepted, taken)
    }

    constructor (config: Config, workerCount: nat)
      ensures this.config == config && View() == Init(workerCount)
    {
      this.config := config;
      webhookQueue, retryQueue, retryJobs, remaining := [], [], [], [];
      tick, workers := NoTick, seq(workerCount, _ => Idle);
      owedAccepts, accepted, taken := 0, 0, 0;
      stats := Stats(0, 0, 0, 0, 0);
      acked, abandoned := [], [];
    }

    /** Accepted exactly when the main channel has room and the select does not take the caller's
        cancellation instead; otherwise dropped without a trace. */
    method EnqueueWebhook(now: int, cancelled: bool) returns (ok: bool)
      modifies this
      ensures ok <==> !cancelled
                      && |old(webhookQueue)| < (if config.bufferSize == 0 then 1 else config.bufferSize)
      ensures ok ==> webhookQueue == old(webhookQueue) + [Job(old(accepted), now, 0, config.maxRetries, 0, 0)]
                     && accepted == old(accepted) + 1 && stats.queueSize == old(stats).queueSize + 1
      ensures !ok ==> View() == old(View())
      ensures ok ==> IsRun(config, old(View()), [Accept(now), CountAccept])
                     && View() == Run(config, old(View()), [Accept(now), CountAccept])
    {
      ok := !cancelled && |webhookQueue| < Slots(config);
      if ok {
        RunTwo(config, View(), Accept(now), CountAccept);
        webhookQueue := webhookQueue + [NewJob(config, View(), now)];
        accepted := accepted + 1;
        stats := stats.(queueSize := stats.queueSize + 1);
      }
    }

    /** A worker goroutine's receive from either channel. */
    method Receive(w: nat, fromRetry: bool)
      requires Enabled(config, View(), if fromRetry then TakeRetry(w) else TakeMain(w))
      modifies this
      ensures View() == Next(config, old(View()), if fromRetry then TakeRetry(w) else TakeMain(w))
    {
      if fromRetry {
        workers := workers[w := Sending(Begun(retryQueue[0]))];
        retryQueue := retryQueue[1..];
        taken := taken + 1;
      } else {
        workers := workers[w := Sending(Begun(webhookQueue[0]))];
        webhookQueue := webhookQueue[1..];
      }
    }

    /** The counter update after `SendWebhook` returns. */
    method RecordProcessed(w: nat, ok: bool, requests: nat)
      requires Enabled(config, View(), Finish(w, ok, requests))
      modifies this
      ensures View() == Next(config, old(View()), Finish(w, ok, requests))
    {
      var job := Sent(workers[w].job, requests);
      stats := stats.(queueSize := stats.queueSize - 1, totalProcessed := stats.totalProcessed + 1);
      if ok {
        workers := workers[w := Idle];
        acked := acked + [job];
      } else {
        workers := workers[w := Failed(job)];
      }
    }

    /** The failure branch: hand the job to the retry channel or abandon it, then count. */
    method HandleFailure(w: nat, now: int) returns (retried: bool)
      requires w < |workers| && workers[w].Failed?
      modifies this
      ensures retried <==> Retryable(config, old(workers[w]).job, now) && |old(retryQueue)| < Slots(config)
      ensures var count := if retried then CountRetry(w) else CountAbandon(w);
              IsRun(config, old(View()), [Resolve(w, now), count])
              && View() == Run(config, old(View()), [Resolve(w, now), count])
    {
      var job := workers[w].job;
      retried := Retryable(config, job, now) && |retryQueue| < Slots(config);
      RunTwo(config, View(), Resolve(w, now), if retried then CountRetry(w) else CountAbandon(w));
      ghost var was := workers;
      if retried {
        retryQueue := retryQueue + [Rescheduled(job, now)];
        stats := stats.(pendingRetries := stats.pendingRetries + 1, totalRetries := stats.totalRetries + 1);
      } else {
        abandoned := abandoned + [job];
        stats := stats.(totalAbandoned := stats.totalAbandoned + 1);
      }
      workers := workers[w := Idle];
      assert was[w := OwesRetry][w := Idle] == workers && was[w := OwesAbandon][w := Idle] == workers;
    }

    /** `processWebhookJob` after the receive: send, count, then acknowledge, retry or abandon. */
    method ProcessWebhookJob(w: nat, wellFormed: bool, server: nat -> Response, done: nat -> bool, now: int)
      returns (outcome: Outcome, ghost steps: seq<Step>)
      requires config.maxRetries >= 1 || !wellFormed
      requires w < |workers| && workers[w].Sending?
      modifies this
      ensures steps != [] && steps[0].Finish? && (steps[0].ok <==> outcome.Delivered?)
      ensures outcome.Delivered? <==> |steps| == 1
      ensures IsRun(config, old(View()), steps) && View() == Run(config, old(View()), steps)
    {
      var requests: nat;
      outcome, requests := SendWebhook(config.maxRetries, wellFormed, server, done);
      var ok := outcome.Delivered?;
      ghost var first := Finish(w, ok, requests);
      RunOne(config, View(), first);
      RecordProcessed(w, ok, requests);
      steps := [first];
      if !ok {
        var retried := HandleFailure(w, now);
        steps := [first, Resolve(w, now), if retried then CountRetry(w) else CountAbandon(w)];
        assert steps[1..] == [steps[1], steps[2]];
      }
    }

    /** One iteration of the timer pass: promote and count, or keep. */
    method ScanOne()
      requires tick.Scanning? && retryJobs != []
      modifies this
      ensures View() == AfterScan(config, old(View()))
    {
      var job := retryJobs[0];
      if Promotes(config, View()) {
        webhookQueue := webhookQueue + [job];
        stats := stats.(pendingRetries := stats.pendingRetries - 1, queueSize := stats.queueSize + 1);
      } else {
        remaining := remaining + [job];
      }
      retryJobs := retryJobs[1..];
    }

    /** One firing of the retry timer, its loop over `retryJobs` run to completion. */
    method RetryTick(now: int) returns (ghost steps: seq<Step>)
      requires tick == NoTick && remaining == [] && |webhookQueue| <= Slots(config)
      modifies this
      ensures View() == PassResult(config, old(View()).(tick := Scanning(now)))
      ensures steps != [] && steps[0] == StartTick(now)
      ensures IsRun(config, old(View()), steps) && View() == Run(config, old(View()), steps)
    {
      steps := TickIsRun(config, View(), now);
      hide PassResult, AfterScan;
      ghost var s0 := View().(tick := Scanning(now));
      tick := Scanning(now);
      while retryJobs != []
        invariant tick.Scanning? && |webhookQueue| <= Slots(config)
        invariant PassResult(config, View()) == PassResult(config, s0)
        decreases |retryJobs|
      {
        PassResultAfterScan(config, View());
        ScanOne();
      }
      PassEnd(config, View());
      retryJobs, remaining, tick := remaining, [], NoTick;
    }
  }
}
