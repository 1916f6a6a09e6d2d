/** Webhook delivery metrics as values: counters per webhook type, each split by domain. */
module MetricsModel {
  import opened Sums
  import opened Backoff

  datatype DomainStats = DomainStats(
    attempts: nat, successful: nat, failed: nat, totalLatency: nat, latencyCount: nat, averageLatency: nat)

  datatype TypeStats = TypeStats(
    attempts: nat, successful: nat, failed: nat, totalRetries: int,
    totalLatency: nat, latencyCount: nat, averageLatency: nat,
    reasons: map<string, nat>, domains: map<string, DomainStats>)

  type Index = map<string, TypeStats>

  datatype Event =
    | Attempt(kind: string, domain: string)
    | Success(kind: string, domain: string)
    | Failure(kind: string, domain: string, reason: string)
    | Duration(kind: string, domain: string, latency: nat)
    | Retries(kind: string, retries: int)
    | ResetType(kind: string)
    | ResetAll

  const NO_DOMAIN := DomainStats(0, 0, 0, 0, 0, 0)
  const NO_TYPE := TypeStats(0, 0, 0, 0, 0, 0, 0, map[], map[])

  function TypeOf(ix: Index, kind: string): TypeStats { if kind in ix then ix[kind] else NO_TYPE }

  function DomainOf(ts: TypeStats, domain: string): DomainStats {
    if domain in ts.domains then ts.domains[domain] else NO_DOMAIN
  }

  function RecordInDomain(ds: DomainStats, e: Event): DomainStats {
    match e
    case Attempt(_, _) => ds.(attempts := ds.attempts + 1)
    case Success(_, _) => ds.(successful := ds.successful + 1)
    case Failure(_, _, _) => ds.(failed := ds.failed + 1)
    case Duration(_, _, latency) =>
      ds.(totalLatency := ds.totalLatency + latency, latencyCount := ds.latencyCount + 1,
          averageLatency := Quotient(ds.totalLatency + latency, ds.latencyCount + 1))
    case _ => ds
  }

  function RecordTotals(ts: TypeStats, e: Event): TypeStats {
    match e
    case Attempt(_, _) => ts.(attempts := ts.attempts + 1)
    case Success(_, _) => ts.(successful := ts.successful + 1)
    case Failure(_, _, reason) =>
      ts.(failed := ts.failed + 1,
          reasons := ts.reasons[reason := (if reason in ts.reasons then ts.reasons[reason] else 0) + 1])
    case Duration(_, _, latency) =>
      ts.(totalLatency := ts.totalLatency + latency, latencyCount := ts.latencyCount + 1,
          averageLatency := Quotient(ts.totalLatency + latency, ts.latencyCount + 1))
    case Retries(_, retries) => ts.(totalRetries := ts.totalRetries + retries - 1)
    case _ => ts
  }

  function RecordInType(ts: TypeStats, e: Event): TypeStats {
    var t := RecordTotals(ts, e);
    if NamesDomain(e) then
      t.(domains := t.domains[e.domain := RecordInDomain(DomainOf(t, e.domain), e)])
    else t
  }

  function Record(ix: Index, e: Event): Index {
    match e
    case ResetAll => map[]
    case ResetType(kind) => ix - {kind}
    case _ => ix[e.kind := RecordInType(TypeOf(ix, e.kind), e)]
  }

  function RecordAll(events: seq<Event>): Index {
    if events == [] then map[] else Record(RecordAll(events[..|events| - 1]), events[|events| - 1])
  }

  // ---------- Totals are sums ----------

  function Attempts(): DomainStats -> int { (d: DomainStats) => d.attempts }
  function Successes(): DomainStats -> int { (d: DomainStats) => d.successful }
  function Failures(): DomainStats -> int { (d: DomainStats) => d.failed }
  function Latency(): DomainStats -> int { (d: DomainStats) => d.totalLatency }
  function LatencyCount(): DomainStats -> int { (d: DomainStats) => d.latencyCount }
  function Itself(): nat -> int { (n: nat) => n }

  /** The average is the exact integer quotient of the current total and count. */
  predicate ExactAverage(average: nat, total: nat, count: nat) {
    if count == 0 then average == 0 && total == 0 else average == Quotient(total, count)
  }

  ghost predicate SumsOverDomains(ts: TypeStats) {
    && ts.attempts == SumMap(Attempts(), ts.domains)
    && ts.successful == SumMap(Successes(), ts.domains)
    && ts.failed == SumMap(Failures(), ts.domains)
    && ts.totalLatency == SumMap(Latency(), ts.domains)
    && ts.latencyCount == SumMap(LatencyCount(), ts.domains)
  }

  predicate ExactAverages(ts: TypeStats) {
    && ExactAverage(ts.averageLatency, ts.totalLatency, ts.latencyCount)
    && forall d :: d in ts.domains ==>
         ExactAverage(ts.domains[d].averageLatency, ts.domains[d].totalLatency, ts.domains[d].latencyCount)
  }

  ghost predicate Consistent(ts: TypeStats) {
    SumsOverDomains(ts) && ts.failed == SumMap(Itself(), ts.reasons) && ExactAverages(ts)
  }

  predicate NamesDomain(e: Event) { e.Attempt? || e.Success? || e.Failure? || e.Duration? }

  lemma {:induction false} RecordKeepsSums(ts: TypeStats, e: Event)
    requires SumsOverDomains(ts)
    ensures SumsOverDomains(RecordInType(ts, e))
  {
    if NamesDomain(e) {
      var ds := RecordInDomain(DomainOf(ts, e.domain), e);
      SumMapUpdate(Attempts(), ts.domains, e.domain, ds);
      SumMapUpdate(Successes(), ts.domains, e.domain, ds);
      SumMapUpdate(Failures(), ts.domains, e.domain, ds);
      SumMapUpdate(Latency(), ts.domains, e.domain, ds);
      SumMapUpdate(LatencyCount(), ts.domains, e.domain, ds);
    }
  }

  lemma {:induction false} RecordKeepsReasons(ts: TypeStats, e: Event)
    requires ts.failed == SumMap(Itself(), ts.reasons)
    ensures RecordInType(ts, e).failed == SumMap(Itself(), RecordInType(ts, e).reasons)
  {
    if e.Failure? {
      SumMapUpdate(Itself(), ts.reasons, e.reason, (if e.reason in ts.reasons then ts.reasons[e.reason] else 0) + 1);
    }
  }

  lemma {:induction false} RecordKeepsAverages(ts: TypeStats, e: Event)
    requires ExactAverages(ts)
    ensures ExactAverages(RecordInType(ts, e))
  {
  }

  lemma {:induction false} RecordKeepsConsistent(ts: TypeStats, e: Event)
    requires Consistent(ts)
    ensures Consistent(RecordInType(ts, e))
  {
    RecordKeepsSums(ts, e);
    RecordKeepsReasons(ts, e);
    RecordKeepsAverages(ts, e);
  }

  /** After any sequence of events, every webhook type's totals are the sums over its domains, its
      failures also the sum over reasons, and every average the exact integer quotient. */
  lemma {:induction false} TotalsAreSums(events: seq<Event>, kind: string)
    requires kind in RecordAll(events)
    ensures Consistent(RecordAll(events)[kind])
    ensures var ts := RecordAll(events)[kind];
            && ts.attempts == SumMap((d: DomainStats) => d.attempts, ts.domains)
            && ts.successful == SumMap((d: DomainStats) => d.successful, ts.domains)
            && ts.failed == SumMap((d: DomainStats) => d.failed, ts.domains) == SumMap((n: nat) => n, ts.reasons)
            && ts.totalLatency == SumMap((d: DomainStats) => d.totalLatency, ts.domains)
            && ts.latencyCount == SumMap((d: DomainStats) => d.latencyCount, ts.domains)
    ensures forall d :: d in RecordAll(events)[kind].domains ==>
              var ds := RecordAll(events)[kind].domains[d];
              if ds.latencyCount == 0 then ds.totalLatency == 0 && ds.averageLatency == 0
              else ds.averageLatency == Quotient(ds.totalLatency, ds.latencyCount)
    ensures var ts := RecordAll(events)[kind];
            if ts.latencyCount == 0 then ts.totalLatency == 0 && ts.averageLatency == 0
            else ts.averageLatency == Quotient(ts.totalLatency, ts.latencyCount)
  {
    var n := |events| - 1;
    var before, e := RecordAll(events[..n]), events[n];
    if kind in before {
      TotalsAreSums(events[..n], kind);
    }
    if !e.ResetAll? && !e.ResetType? && e.kind == kind {
      RecordKeepsConsistent(TypeOf(before, kind), e);
    }
  }

  // ---------- Counters are event counts ----------

  predicate Resets(e: Event, kind: string) { e.ResetAll? || (e.ResetType? && e.kind == kind) }

  /** The sum of some weight over the type's events since it was last reset. */
  function Tally(weight: Event -> int, events: seq<Event>, kind: string): int {
    if events == [] || Resets(events[|events| - 1], kind) then 0
    else
      var e := events[|events| - 1];
      Tally(weight, events[..|events| - 1], kind) + if !e.ResetType? && e.kind == kind then weight(e) else 0
  }

  function AttemptEvents(): Event -> int { (e: Event) => if e.Attempt? then 1 else 0 }
  function SuccessEvents(): Event -> int { (e: Event) => if e.Success? then 1 else 0 }
  function FailureEvents(): Event -> int { (e: Event) => if e.Failure? then 1 else 0 }
  function Samples(): Event -> int { (e: Event) => if e.Duration? then 1 else 0 }
  function Latencies(): Event -> int { (e: Event) => if e.Duration? then e.latency else 0 }
  function ExtraTries(): Event -> int { (e: Event) => if e.Retries? then e.retries - 1 else 0 }
  function WithReason(reason: string): Event -> int {
    (e: Event) => if e.Failure? && e.reason == reason then 1 else 0
  }

  /** What one event adds to a type's counters. */
  lemma {:induction false} TypeStep(ts: TypeStats, e: Event, reason: string)
    ensures var t := RecordInType(ts, e);
            && t.attempts == ts.attempts + AttemptEvents()(e) && t.successful == ts.successful + SuccessEvents()(e)
            && t.failed == ts.failed + FailureEvents()(e) && t.latencyCount == ts.latencyCount + Samples()(e)
            && t.totalLatency == ts.totalLatency + Latencies()(e) && t.totalRetries == ts.totalRetries + ExtraTries()(e)
            && (if reason in t.reasons then t.reasons[reason] else 0)
               == (if reason in ts.reasons then ts.reasons[reason] else 0) + WithReason(reason)(e)
  {
  }

  /** What one event adds to the counters of a domain. */
  lemma {:induction false} DomainStep(ts: TypeStats, e: Event, domain: string)
    ensures var d, t := DomainOf(ts, domain), DomainOf(RecordInType(ts, e), domain);
            && t.attempts == d.attempts + In(domain, AttemptEvents())(e)
            && t.successful == d.successful + In(domain, SuccessEvents())(e)
            && t.failed == d.failed + In(domain, FailureEvents())(e)
            && t.latencyCount == d.latencyCount + In(domain, Samples())(e)
            && t.totalLatency == d.totalLatency + In(domain, Latencies())(e)
  {
  }

  /** After any events, every counter of a webhook type is the count of its events since its last reset,
      and a retry report of n counts n - 1. */
  lemma {:induction false} CountersAreEventCounts(events: seq<Event>, kind: string, reason: string)
    ensures var ts := TypeOf(RecordAll(events), kind);
            && ts.attempts == Tally(AttemptEvents(), events, kind)
            && ts.successful == Tally(SuccessEvents(), events, kind)
            && ts.failed == Tally(FailureEvents(), events, kind)
            && ts.latencyCount == Tally(Samples(), events, kind)
            && ts.totalLatency == Tally(Latencies(), events, kind)
            && ts.totalRetries == Tally(ExtraTries(), events, kind)
            && (if reason in ts.reasons then ts.reasons[reason] else 0) == Tally(WithReason(reason), events, kind)
  {
    if events != [] {
      var before, e := events[..|events| - 1], events[|events| - 1];
      CountersAreEventCounts(before, kind, reason);
      hide RecordInType;
      if !Resets(e, kind) && !e.ResetType? {
        TypeStep(TypeOf(RecordAll(before), e.kind), e, reason);
      }
    }
  }

  function In(domain: string, weight: Event -> int): Event -> int {
    (e: Event) => if NamesDomain(e) && e.domain == domain then weight(e) else 0
  }

  /** The same for each domain of the type. */
  lemma {:induction false} DomainCountersAreEventCounts(events: seq<Event>, kind: string, domain: string)
    ensures var ds := DomainOf(TypeOf(RecordAll(events), kind), domain);
            && ds.attempts == Tally(In(domain, AttemptEvents()), events, kind)
            && ds.successful == Tally(In(domain, SuccessEvents()), events, kind)
            && ds.failed == Tally(In(domain, FailureEvents()), events, kind)
            && ds.latencyCount == Tally(In(domain, Samples()), events, kind)
            && ds.totalLatency == Tally(In(domain, Latencies()), events, kind)
  {
    if events != [] {
      var before, e := events[..|events| - 1], events[|events| - 1];
      DomainCountersAreEventCounts(before, kind, domain);
      hide RecordInType;
      if !Resets(e, kind) && !e.ResetType? {
        DomainStep(TypeOf(RecordAll(before), e.kind), e, domain);
      }
    }
  }
}
