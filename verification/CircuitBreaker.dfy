/** A webhook configuration's circuit breaker and delivery counters. */
module CircuitBreaker {
  import opened Basics

  datatype State = Closed | Open | HalfOpen

  datatype Health = Unknown | Healthy | Degraded | Unhealthy

  /** `timeout` is in the same unit as the times. */
  datatype Config = Config(enabled: bool, breakerEnabled: bool, threshold: int, timeout: int)

  datatype Breaker = Breaker(
    state: State, openedAt: Option<int>, consecutiveFailures: nat, totalSuccesses: nat, totalFailures: nat,
    averageMs: nat, health: Health)

  datatype Event =
    | Succeeded(now: int, ms: nat)  // RecordSuccess
    | Failed(now: int)              // RecordFailure
    | Probed(now: int)              // CanAttemptDelivery

  const NEW := Breaker(Closed, None, 0, 0, 0, 0, Unknown)

  /** Success rate at least 95% is healthy, at least 80% degraded. */
  function HealthOf(successes: nat, failures: nat): Health {
    var total := successes + failures;
    if 100 * successes >= 95 * total then Healthy
    else if 100 * successes >= 80 * total then Degraded
    else Unhealthy
  }

  function AfterSuccess(b: Breaker, ms: nat): Breaker {
    b.(state := Closed,
       openedAt := if b.state == Closed then b.openedAt else None,
       consecutiveFailures := 0,
       totalSuccesses := b.totalSuccesses + 1,
       averageMs := if b.averageMs == 0 then ms else (b.averageMs * 9 + ms) / 10,
       health := HealthOf(b.totalSuccesses + 1, b.totalFailures))
  }

  function AfterFailure(c: Config, b: Breaker, now: int): Breaker {
    var b1 := b.(consecutiveFailures := b.consecutiveFailures + 1,
                 totalFailures := b.totalFailures + 1,
                 health := HealthOf(b.totalSuccesses, b.totalFailures + 1));
    if c.breakerEnabled && b1.consecutiveFailures >= c.threshold && b.state != Open
    then b1.(state := Open, openedAt := Some(now)) else b1
  }

  predicate TimedOut(c: Config, b: Breaker, now: int) {
    b.openedAt.Some? && now - b.openedAt.value > c.timeout
  }

  predicate CanAttempt(c: Config, b: Breaker, now: int) {
    c.enabled && (!c.breakerEnabled || b.state != Open || TimedOut(c, b, now))
  }

  /** The check itself moves a timed-out breaker to half-open. */
  function AfterProbe(c: Config, b: Breaker, now: int): Breaker {
    if c.enabled && c.breakerEnabled && b.state == Open && TimedOut(c, b, now) then b.(state := HalfOpen) else b
  }

  function Step(c: Config, b: Breaker, e: Event): Breaker {
    match e
    case Succeeded(_, ms) => AfterSuccess(b, ms)
    case Failed(now) => AfterFailure(c, b, now)
    case Probed(now) => AfterProbe(c, b, now)
  }

  function Run(c: Config, b: Breaker, es: seq<Event>): Breaker {
    if es == [] then b else Step(c, Run(c, b, es[..|es| - 1]), es[|es| - 1])
  }

  function After(c: Config, es: seq<Event>): Breaker { Run(c, NEW, es) }

  // ---------- The object ----------

  class WebhookConfiguration {
    const config: Config
    var state: State
    var openedAt: Option<int>
    var consecutiveFailures: nat
    var totalSuccesses: nat
    var totalFailures: nat
    var averageMs: nat
    var health: Health

    function View(): Breaker
      reads this
    {
      Breaker(state, openedAt, consecutiveFailures, totalSuccesses, totalFailures, averageMs, health)
    }

    constructor (config: Config)
      ensures this.config == config && View() == NEW
    {
      this.config := config;
      state, openedAt, health := Closed, None, Unknown;
      consecutiveFailures, totalSuccesses, totalFailures, averageMs := 0, 0, 0, 0;
    }

    method RecordSuccess(ms: nat)
      modifies this
      ensures View() == AfterSuccess(old(View()), ms)
    {
      consecutiveFailures := 0;
      totalSuccesses := totalSuccesses + 1;
      if averageMs == 0 {
        averageMs := ms;
      } else {
        averageMs := (averageMs * 9 + ms) / 10;
      }
      health := HealthOf(totalSuccesses, totalFailures);
      if state == Open || state == HalfOpen {
        state := Closed;
        openedAt := None;
      }
    }

    method RecordFailure(now: int)
      modifies this
      ensures View() == AfterFailure(config, old(View()), now)
    {
      consecutiveFailures := consecutiveFailures + 1;
      totalFailures := totalFailures + 1;
      health := HealthOf(totalSuccesses, totalFailures);
      if config.breakerEnabled && consecutiveFailures >= config.threshold {
        if state != Open {
          state := Open;
          openedAt := Some(now);
        }
      }
    }

    method CanAttemptDelivery(now: int) returns (ok: bool)
      modifies this
      ensures ok <==> CanAttempt(config, old(View()), now)
      ensures View() == AfterProbe(config, old(View()), now)
    {
      if !config.enabled {
        return false;
      }
      if !config.breakerEnabled {
        return true;
      }
      if state == Open {
        if openedAt.Some? && now - openedAt.value > config.timeout {
          state := HalfOpen;
          return true;
        }
        return false;
      }
      ok := true;
    }
  }

  // ---------- Fields as functions of the whole history ----------

  /** Failures since the last success. */
  function TrailingFailures(es: seq<Event>): nat {
    if es == [] then 0
    else
      match es[|es| - 1]
      case Succeeded(_, _) => 0
      case Failed(_) => TrailingFailures(es[..|es| - 1]) + 1
      case Probed(_) => TrailingFailures(es[..|es| - 1])
  }

  function Successes(es: seq<Event>): nat {
    if es == [] then 0 else Successes(es[..|es| - 1]) + if es[|es| - 1].Succeeded? then 1 else 0
  }

  function Failures(es: seq<Event>): nat {
    if es == [] then 0 else Failures(es[..|es| - 1]) + if es[|es| - 1].Failed? then 1 else 0
  }

  /** There were failures since the last success, at least `threshold` of them. */
  predicate Tripped(c: Config, es: seq<Event>) { 1 <= TrailingFailures(es) && c.threshold <= TrailingFailures(es) }

  /** Over every history and for every threshold: the counters are what the history says, and the state
      is Closed exactly when the breaker is off or the trailing failures do not trip it. */
  lemma {:induction false} HistoryDeterminesCounters(c: Config, es: seq<Event>)
    ensures var b := After(c, es);
            && b.consecutiveFailures == TrailingFailures(es)
            && b.totalSuccesses == Successes(es) && b.totalFailures == Failures(es)
            && (b.state == Closed <==> !(c.breakerEnabled && Tripped(c, es)))
            && (b.openedAt.Some? <==> b.state != Closed)
  {
    if es != [] {
      HistoryDeterminesCounters(c, es[..|es| - 1]);
      assert After(c, es) == Step(c, After(c, es[..|es| - 1]), es[|es| - 1]);
    }
  }

  /** Over every history the health is the success rate against 95% and 80%, and unknown at first. */
  lemma {:induction false} HealthInNumbers(c: Config, es: seq<Event>)
    ensures var b := After(c, es);
            && b.totalSuccesses == Successes(es) && b.totalFailures == Failures(es)
            && b.health == (var total := Successes(es) + Failures(es);
                            if total == 0 then Unknown
                            else if 100 * Successes(es) >= 95 * total then Healthy
                            else if 100 * Successes(es) >= 80 * total then Degraded
                            else Unhealthy)
  {
    if es != [] {
      HealthInNumbers(c, es[..|es| - 1]);
    }
  }

  /** The response time is an integer moving average: a tenth of the latest, nine tenths of the past. */
  lemma {:induction false} AverageInNumbers(c: Config, es: seq<Event>, now: int, ms: nat, lo: nat, hi: nat)
    ensures var before := After(c, es).averageMs;
            After(c, es + [Succeeded(now, ms)]).averageMs == if before == 0 then ms else (9 * before + ms) / 10
    ensures After(c, es + [Failed(now)]).averageMs == After(c, es).averageMs == After(c, es + [Probed(now)]).averageMs
    ensures (forall e :: e in es && e.Succeeded? ==> lo <= e.ms <= hi) && Successes(es) > 0
            ==> lo <= After(c, es).averageMs <= hi
  {
    RunLast(c, NEW, es, Succeeded(now, ms));
    RunLast(c, NEW, es, Failed(now));
    RunLast(c, NEW, es, Probed(now));
    AverageBetween(c, es, lo, hi);
  }

  lemma {:induction false} AverageBetween(c: Config, es: seq<Event>, lo: nat, hi: nat)
    ensures Successes(es) == 0 ==> After(c, es).averageMs == 0
    ensures (forall e :: e in es && e.Succeeded? ==> lo <= e.ms <= hi) && Successes(es) > 0
            ==> lo <= After(c, es).averageMs <= hi
  {
    if es != [] {
      var n := |es| - 1;
      AverageBetween(c, es[..n], lo, hi);
      assert es[n] in es;
      assert forall e :: e in es[..n] ==> e in es;
    }
  }

  /** Event i is the failure that opened the breaker for good in this history: from it on there was no
      success, and no delivery check after its timeout. */
  predicate OpenedBy(c: Config, es: seq<Event>, i: int) {
    && 0 <= i < |es| && es[i].Failed? && TrailingFailures(es[..i + 1]) >= c.threshold
    && forall j :: i < j < |es| ==> !es[j].Succeeded? && (es[j].Probed? ==> es[j].now - es[i].now <= c.timeout)
  }

  /** Event j is the check that half-opened the breaker: the first one after the timeout, and since it
      there were only further checks. */
  predicate HalfOpenedBy(c: Config, es: seq<Event>, i: int, j: int) {
    && 0 <= i < j < |es| && OpenedBy(c, es[..j], i)
    && es[j].Probed? && es[j].now - es[i].now > c.timeout
    && forall k :: j < k < |es| ==> es[k].Probed?
  }

  /** An enabled breaker is Open or HalfOpen only through such events, and its timer is the time of the
      opening failure: later failures do not extend it, a failure in half-open starts it afresh. */
  lemma {:induction false} OpenIsExplained(c: Config, es: seq<Event>) returns (i: int, j: int)
    requires c.enabled && c.breakerEnabled && After(c, es).state != Closed
    ensures After(c, es).state == Open ==> OpenedBy(c, es, i) && After(c, es).openedAt == Some(es[i].now)
    ensures After(c, es).state == HalfOpen ==> HalfOpenedBy(c, es, i, j) && After(c, es).openedAt == Some(es[i].now)
  {
    i, j := 0, 0;
    var n := |es| - 1;
    var init, e := es[..n], es[n];
    var b := After(c, init);
    HistoryDeterminesCounters(c, init);
    if b.state != Closed && !e.Succeeded? {
      i, j := OpenIsExplained(c, init);
      assert init[..i + 1] == es[..i + 1];
      if b.state == HalfOpen {
        assert init[..j] == es[..j];
      }
    }
    if e.Failed? && b.state != Open {
      i := n;
      assert es[..n + 1] == es;
      HistoryDeterminesCounters(c, es);
    } else if e.Probed? && b.state == Open && TimedOut(c, b, e.now) {
      j := n;
    }
  }

  /** Conversely, such events explain exactly this state: a failure that trips a breaker which was not open
      opens it with its own time, and the first late check half-opens it. */
  lemma {:induction false} ExplainedIsOpen(c: Config, es: seq<Event>, i: int)
    requires c.enabled && c.breakerEnabled && OpenedBy(c, es, i) && After(c, es[..i]).state != Open
    ensures After(c, es).state == Open && After(c, es).openedAt == Some(es[i].now)
  {
    var n := |es| - 1;
    if i < n {
      assert es[..n][..i] == es[..i] && es[..n][..i + 1] == es[..i + 1];
      ExplainedIsOpen(c, es[..n], i);
    } else {
      assert es[..i + 1] == es;
      HistoryDeterminesCounters(c, es);
      HistoryDeterminesCounters(c, es[..i]);
    }
  }

  lemma {:induction false} ExplainedIsHalfOpen(c: Config, es: seq<Event>, i: int, j: int)
    requires c.enabled && c.breakerEnabled && HalfOpenedBy(c, es, i, j) && After(c, es[..i]).state != Open
    ensures After(c, es).state == HalfOpen && After(c, es).openedAt == Some(es[i].now)
  {
    var n := |es| - 1;
    if j < n {
      assert es[..n][..j] == es[..j] && es[..n][..i] == es[..i];
      ExplainedIsHalfOpen(c, es[..n], i, j);
    } else {
      assert es[..j][..i] == es[..i];
      ExplainedIsOpen(c, es[..j], i);
    }
  }

  /** Nothing gets through an enabled breaker before its time: as long as no success is recorded and
      the clock stays within the timeout, every check is refused and the timer does not move. */
  lemma {:induction false} NoEarlyAttempt(c: Config, b: Breaker, es: seq<Event>)
    requires c.enabled && c.breakerEnabled && b.state == Open && b.openedAt.Some?
    requires forall e :: e in es ==> !e.Succeeded? && e.now - b.openedAt.value <= c.timeout
    ensures Run(c, b, es).state == Open && Run(c, b, es).openedAt == b.openedAt
    ensures forall i :: 0 <= i < |es| && es[i].Probed? ==> !CanAttempt(c, Run(c, b, es[..i]), es[i].now)
  {
    hide Run;
    StaysOpen(c, b, es);
    forall i | 0 <= i < |es| && es[i].Probed? ensures !CanAttempt(c, Run(c, b, es[..i]), es[i].now) {
      StaysOpen(c, b, es[..i]);
      assert es[i] in es;
    }
  }

  lemma {:induction false} StaysOpen(c: Config, b: Breaker, es: seq<Event>)
    requires b.state == Open && b.openedAt.Some?
    requires forall e :: e in es ==> !e.Succeeded? && e.now - b.openedAt.value <= c.timeout
    ensures Run(c, b, es).state == Open && Run(c, b, es).openedAt == b.openedAt
  {
    if es != [] {
      StaysOpen(c, b, es[..|es| - 1]);
      assert es[|es| - 1] in es;
    }
  }

  /** A check that an enabled breaker lets through has a reason in the history: the failures
      since the last success do not trip it, or the opening failure is more than the timeout ago, either
      for this check or for the one that half-opened the breaker. */
  lemma {:induction false} AttemptIsJustified(c: Config, es: seq<Event>, now: int) returns (i: int, j: int)
    requires c.breakerEnabled && CanAttempt(c, After(c, es), now)
    ensures !Tripped(c, es)
            || (OpenedBy(c, es, i) && now - es[i].now > c.timeout)
            || HalfOpenedBy(c, es, i, j)
  {
    i, j := 0, 0;
    HistoryDeterminesCounters(c, es);
    if After(c, es).state != Closed {
      i, j := OpenIsExplained(c, es);
    }
  }

  /** Recovery, over every history: the first check after the timeout of an open breaker passes and
      leaves it half-open. */
  lemma {:induction false} Recovery(c: Config, es: seq<Event>, now: int)
    requires c.enabled && c.breakerEnabled
    requires After(c, es).state == Open && TimedOut(c, After(c, es), now)
    ensures CanAttempt(c, After(c, es), now)
    ensures After(c, es + [Probed(now)]).state == HalfOpen
  {
    RunLast(c, NEW, es, Probed(now));
  }

  /** Wherever a history reaches half-open, one failure reopens the breaker with a fresh timer, and one
      success closes it and forgets the failures; until then every check passes. */
  lemma {:induction false} HalfOpenDecides(c: Config, es: seq<Event>, now: int, ms: nat)
    requires After(c, es).state == HalfOpen
    ensures c.enabled ==> CanAttempt(c, After(c, es), now) && After(c, es + [Probed(now)]) == After(c, es)
    ensures After(c, es + [Failed(now)]).state == Open && After(c, es + [Failed(now)]).openedAt == Some(now)
    ensures var closed := After(c, es + [Succeeded(now, ms)]);
            closed.state == Closed && closed.openedAt == None && closed.consecutiveFailures == 0
  {
    HistoryDeterminesCounters(c, es);
    RunLast(c, NEW, es, Probed(now));
    RunLast(c, NEW, es, Failed(now));
    RunLast(c, NEW, es, Succeeded(now, ms));
  }

  lemma {:induction false} RunLast(c: Config, b: Breaker, es: seq<Event>, e: Event)
    ensures Run(c, b, es + [e]) == Step(c, Run(c, b, es), e)
  {
    assert (es + [e])[..|es|] == es;
  }

  // ---------- The configuration loader ----------

  predicate IsActive(c: Config, b: Breaker) { c.enabled && b.state != Open }

  /** `ShouldSendEvent` for an event the configuration is subscribed to or not. */
  predicate ShouldSend(c: Config, b: Breaker, subscribed: bool) { IsActive(c, b) && subscribed }

  /** What reaches a configuration that is only used through the loader. */
  datatype LoaderEvent =
    | Load(now: int, subscribed: bool)     // LoadWebhookConfigsForEvent
    | RecordedSuccess(now: int, ms: nat)   // RecordWebhookResult
    | RecordedFailure(now: int)

  /** The activity test comes first, so `CanAttemptDelivery` is not even called on an open breaker. */
  function LoaderStep(c: Config, b: Breaker, e: LoaderEvent): Breaker {
    match e
    case Load(now, subscribed) => if ShouldSend(c, b, subscribed) then AfterProbe(c, b, now) else b
    case RecordedSuccess(_, ms) => AfterSuccess(b, ms)
    case RecordedFailure(now) => AfterFailure(c, b, now)
  }

  function LoaderRun(c: Config, b: Breaker, es: seq<LoaderEvent>): Breaker {
    if es == [] then b else LoaderStep(c, LoaderRun(c, b, es[..|es| - 1]), es[|es| - 1])
  }

  /** Over any mix of loads and recorded results a breaker never gets to half-open through the loader,
      so a load selects a subscribed configuration exactly when it is enabled and not open. */
  lemma {:induction false} LoaderNeverHalfOpens(c: Config, es: seq<LoaderEvent>, now: int, subscribed: bool)
    ensures var b := LoaderRun(c, NEW, es);
            && b.state != HalfOpen
            && (ShouldSend(c, b, subscribed) && CanAttempt(c, b, now)
                <==> c.enabled && subscribed && b.state == Closed)
  {
    if es != [] {
      LoaderNeverHalfOpens(c, es[..|es| - 1], now, subscribed);
    }
  }

  /** The recorded results of a loader history, loads left out. */
  function Results(es: seq<LoaderEvent>): seq<Event> {
    if es == [] then []
    else
      Results(es[..|es| - 1]) +
      match es[|es| - 1]
      case Load(_, _) => []
      case RecordedSuccess(now, ms) => [Succeeded(now, ms)]
      case RecordedFailure(now) => [Failed(now)]
  }

  /** Loading changes nothing at all: the breaker is what its recorded results alone make of it. */
  lemma {:induction false} LoadsChangeNothing(c: Config, es: seq<LoaderEvent>)
    ensures LoaderRun(c, NEW, es) == After(c, Results(es))
  {
    if es != [] {
      var before, e := es[..|es| - 1], es[|es| - 1];
      LoadsChangeNothing(c, before);
      LoaderNeverHalfOpens(c, before, 0, true);
      assert Results(before) + [] == Results(before);
      if e.RecordedSuccess? {
        RunLast(c, NEW, Results(before), Succeeded(e.now, e.ms));
      } else if e.RecordedFailure? {
        RunLast(c, NEW, Results(before), Failed(e.now));
      }
    }
  }

  /** An open breaker stays open, with the same timer, through any loads and failures however late:
      only a recorded success gets it out. */
  lemma {:induction false} OnlySuccessCloses(c: Config, b: Breaker, es: seq<LoaderEvent>)
    requires b.state == Open && forall i :: 0 <= i < |es| ==> !es[i].RecordedSuccess?
    ensures LoaderRun(c, b, es).state == Open && LoaderRun(c, b, es).openedAt == b.openedAt
  {
    if es != [] {
      OnlySuccessCloses(c, b, es[..|es| - 1]);
    }
  }
}
