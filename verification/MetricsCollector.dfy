/** The metrics collector on the heap: a map of counter objects, each holding a map of counter
    objects, updated in place and handed out only as deep copies. */
module MetricsCollector {
  import opened Backoff
  import opened MetricsModel

  class DomainMetrics {
    var stats: DomainStats

    constructor (stats: DomainStats)
      ensures this.stats == stats
    {
      this.stats := stats;
    }

    method Bump(e: Event)
      modifies this
      ensures stats == RecordInDomain(old(stats), e)
    {
      match e
      case Attempt(_, _) => stats := stats.(attempts := stats.attempts + 1);
      case Success(_, _) => stats := stats.(successful := stats.successful + 1);
      case Failure(_, _, _) => stats := stats.(failed := stats.failed + 1);
      case Duration(_, _, latency) =>
        stats := stats.(totalLatency := stats.totalLatency + latency, latencyCount := stats.latencyCount + 1);
        stats := stats.(averageLatency := Quotient(stats.totalLatency, stats.latencyCount));
      case _ =>
    }
  }

  lemma {:induction false} OneMoreKey(m: map<string, DomainStats>, todo: set<string>, d: string)
    requires d in todo && d in m
    ensures (m - todo)[d := m[d]] == m - (todo - {d})
  {
  }

  /** The failure counts by reason: a Go map, so a reference that two holders would share. */
  class FailureReasons {
    var counts: map<string, nat>

    constructor ()
      ensures counts == map[]
    {
      counts := map[];
    }

    method Increment(reason: string)
      modifies this
      ensures counts == old(counts)[reason := (if reason in old(counts) then old(counts)[reason] else 0) + 1]
    {
      counts := counts[reason := (if reason in counts then counts[reason] else 0) + 1];
    }

    /** The copying loop over the entries. */
    method Copy() returns (c: FailureReasons)
      ensures fresh(c) && c.counts == counts
    {
      c := new FailureReasons();
      var todo := counts.Keys;
      while todo != {}
        invariant todo <= counts.Keys && c.counts == counts - todo
        decreases |todo|
      {
        var reason :| reason in todo;
        c.counts := c.counts[reason := counts[reason]];
        todo := todo - {reason};
      }
    }
  }

  /** The reasons and domain objects with `reasons` and `domains`, the values they stand for; `Valid`
      ties them. */
  class WebhookMetrics {
    var totals: TypeStats  // the scalar counters; its `reasons` and `domains` parts are not used
    var failureReasons: FailureReasons
    ghost var reasons: map<string, nat>
    var domainMetrics: map<string, DomainMetrics>
    ghost var domains: map<string, DomainStats>
    ghost var Repr: set<object>

    ghost predicate Valid()
      reads this, Repr
      ensures Valid() ==> this in Repr && domains.Keys == domainMetrics.Keys
    {
      && this in Repr && domains.Keys == domainMetrics.Keys
      && failureReasons in Repr && failureReasons.counts == reasons
      && (forall d :: d in domainMetrics ==> domainMetrics[d] in Repr && domainMetrics[d].stats == domains[d])
      && (forall d1, d2 :: d1 in domainMetrics && d2 in domainMetrics && d1 != d2
            ==> domainMetrics[d1] != domainMetrics[d2])
    }

    /** The value the whole object stands for. */
    ghost function Model(): TypeStats
      reads this
    {
      totals.(reasons := reasons, domains := domains)
    }

    constructor ()
      ensures Valid() && fresh(Repr) && Model() == NO_TYPE && domainMetrics == map[]
    {
      totals, domainMetrics := NO_TYPE, map[];
      failureReasons := new FailureReasons();
      reasons, domains := map[], map[];
      new;
      Repr := {this, failureReasons};
    }

    method Bump(e: Event)
      requires Valid()
      modifies this`totals, this`reasons, failureReasons
      ensures Valid() && Model() == RecordTotals(old(Model()), e)
    {
      var t := totals;
      match e {
        case Attempt(_, _) => totals := t.(attempts := t.attempts + 1);
        case Success(_, _) => totals := t.(successful := t.successful + 1);
        case Failure(_, _, reason) =>
          totals := t.(failed := t.failed + 1);
          failureReasons.Increment(reason);
          reasons := failureReasons.counts;
        case Duration(_, _, latency) =>
          t := t.(totalLatency := t.totalLatency + latency, latencyCount := t.latencyCount + 1);
          totals := t.(averageLatency := Quotient(t.totalLatency, t.latencyCount));
        case Retries(_, retries) => totals := t.(totalRetries := t.totalRetries + retries - 1);
        case _ =>
      }
    }

    /** `getOrCreateDomainMetrics`. */
    method GetOrCreateDomain(domain: string) returns (dm: DomainMetrics)
      requires Valid()
      modifies this`domainMetrics, this`domains, this`Repr
      ensures Valid() && fresh(Repr - old(Repr))
      ensures domain in domainMetrics && domainMetrics[domain] == dm && dm in Repr
      ensures domains == old(domains)[domain := if domain in old(domains) then old(domains)[domain] else NO_DOMAIN]
    {
      if domain in domainMetrics {
        dm := domainMetrics[domain];
      } else {
        dm := new DomainMetrics(NO_DOMAIN);
        AddDomain(domain, dm);
      }
    }

    method AddDomain(domain: string, dm: DomainMetrics)
      requires Valid() && domain !in domainMetrics && dm !in Repr
      modifies this`domainMetrics, this`domains, this`Repr
      ensures Valid() && Repr == old(Repr) + {dm}
      ensures domainMetrics == old(domainMetrics)[domain := dm] && domains == old(domains)[domain := dm.stats]
    {
      domainMetrics := domainMetrics[domain := dm];
      domains := domains[domain := dm.stats];
      Repr := Repr + {dm};
    }

    method Read(domain: string) returns (stats: DomainStats)
      requires Valid() && domain in domainMetrics
      ensures stats == domains[domain]
    {
      stats := domainMetrics[domain].stats;
    }

    /** Take over scalar counters, and a copy of the reasons that this object alone will hold. */
    method SetTotals(totals: TypeStats, copied: FailureReasons)
      requires Valid()
      modifies this`totals, this`failureReasons, this`reasons, this`Repr
      ensures Valid() && this.totals == totals && reasons == copied.counts && Repr == old(Repr) + {copied}
    {
      this.totals := totals;
      failureReasons, reasons, Repr := copied, copied.counts, Repr + {copied};
    }

    method AddCopy(domain: string, stats: DomainStats)
      requires Valid() && domain !in domainMetrics
      modifies this`domainMetrics, this`domains, this`Repr
      ensures Valid() && fresh(Repr - old(Repr))
      ensures domains == old(domains)[domain := stats]
    {
      var dm := new DomainMetrics(stats);
      AddDomain(domain, dm);
    }

    /** The domain half of a record call. */
    method RecordInDomainOf(e: Event)
      requires Valid() && NamesDomain(e)
      modifies Repr
      ensures Valid() && fresh(Repr - old(Repr)) && totals == old(totals) && reasons == old(reasons)
      ensures domains == old(domains)[e.domain := RecordInDomain(DomainOf(old(Model()), e.domain), e)]
    {
      hide Valid;
      var dm := GetOrCreateDomain(e.domain);
      BumpDomain(dm, e);
    }

    method BumpDomain(dm: DomainMetrics, e: Event)
      requires Valid() && NamesDomain(e) && e.domain in domainMetrics && domainMetrics[e.domain] == dm
      modifies dm, this`domains
      ensures Valid()
      ensures domains == old(domains)[e.domain := RecordInDomain(old(domains)[e.domain], e)]
    {
      dm.Bump(e);
      domains := domains[e.domain := dm.stats];
    }

    /** Everything one record call does to a webhook type. */
    method RecordEvent(e: Event)
      requires Valid()
      modifies Repr
      ensures Valid() && fresh(Repr - old(Repr))
      ensures Model() == RecordInType(old(Model()), e)
    {
      Bump(e);
      if NamesDomain(e) {
        RecordInDomainOf(e);
      }
    }

    /** `copyMetrics`: a deep copy that shares no object with the original. */
    method Copy() returns (c: WebhookMetrics)
      requires Valid()
      ensures c.Valid() && fresh(c.Repr) && c.Model() == Model()
    {
      hide Valid;
      c := new WebhookMetrics();
      var copied := failureReasons.Copy();
      ReasonsTied();
      c.SetTotals(totals, copied);
      CopyDomains(c);
    }

    lemma ReasonsTied()
      requires Valid()
      ensures failureReasons.counts == reasons
    {
    }

    method CopyDomains(c: WebhookMetrics)
      requires Valid() && c.Valid() && c != this && c !in Repr && c.domains == map[]
      modifies c`domainMetrics, c`domains, c`Repr
      ensures c.Valid() && fresh(c.Repr - old(c.Repr)) && c.domains == domains
    {
      hide Valid;
      var todo := domainMetrics.Keys;
      while todo != {}
        invariant todo <= domainMetrics.Keys
        invariant Valid() && c.Valid() && fresh(c.Repr - old(c.Repr))
        invariant c.domains == domains - todo
        decreases |todo|
      {
        var d :| d in todo;
        var stats := Read(d);
        c.AddCopy(d, stats);
        OneMoreKey(domains, todo, d);
        todo := todo - {d};
      }
    }
  }

  /** `index` is the value the whole collector stands for. */
  class Collector {
    var metrics: map<string, WebhookMetrics>
    ghost var index: Index
    ghost var Repr: set<object>

    /** No two types share an object. */
    static ghost predicate Separate(ms: map<string, WebhookMetrics>)
      reads ms.Values
    {
      forall k1, k2 :: k1 in ms && k2 in ms && k1 != k2 ==> ms[k1].Repr !! ms[k2].Repr
    }

    static lemma SeparateAdd(ms: map<string, WebhookMetrics>, all: set<object>, kind: string, m: WebhookMetrics)
      requires Separate(ms) && kind !in ms && m.Repr !! all
      requires forall k :: k in ms ==> ms[k].Repr <= all
      ensures Separate(ms[kind := m])
    {
    }

    ghost predicate Owns(k: string)
      requires k in metrics && k in index
      reads this, Repr
    {
      && metrics[k] in Repr && metrics[k].Repr <= Repr && this !in metrics[k].Repr
      && metrics[k].Valid() && metrics[k].Model() == index[k]
    }

    ghost predicate Valid()
      reads this, Repr
      ensures Valid() ==> this in Repr
    {
      && this in Repr && index.Keys == metrics.Keys
      && (forall k :: k in metrics ==> Owns(k))
      && Separate(metrics)
    }

    constructor ()
      ensures Valid() && fresh(Repr) && index == map[]
    {
      metrics := map[];
      index, Repr := map[], {this};
    }

    /** `getOrCreateMetrics`. */
    method GetOrCreate(kind: string) returns (m: WebhookMetrics)
      requires Valid()
      modifies this
      ensures Valid() && fresh(Repr - old(Repr))
      ensures kind in metrics && metrics[kind] == m && m.Repr <= Repr
      ensures index == old(index)[kind := TypeOf(old(index), kind)]
    {
      if kind in metrics {
        m := metrics[kind];
      } else {
        m := new WebhookMetrics();
        AddType(kind, m);
      }
    }

    method AddType(kind: string, m: WebhookMetrics)
      requires Valid() && kind !in metrics && m.Valid() && m.Repr !! Repr
      modifies this
      ensures Valid() && Repr == old(Repr) + m.Repr
      ensures metrics == old(metrics)[kind := m] && index == old(index)[kind := m.Model()]
    {
      hide WebhookMetrics.Valid, WebhookMetrics.Model, Separate;
      SeparateAdd(metrics, Repr, kind, m);
      metrics := metrics[kind := m];
      index := index[kind := m.Model()];
      Repr := Repr + m.Repr;
      assert Owns(kind) && forall k :: k in metrics && k != kind ==> Owns(k);
    }

    /** The body of every Record... method of the collector. */
    method RecordEvent(e: Event)
      requires Valid() && !e.ResetAll? && !e.ResetType?
      modifies Repr
      ensures Valid() && fresh(Repr - old(Repr))
      ensures index == Record(old(index), e)
    {
      hide Valid, WebhookMetrics.Valid;
      var m := GetOrCreate(e.kind);
      UpdateOne(m, e);
    }

    /** Changing one webhook type's counters leaves every other type as it was. */
    method UpdateOne(m: WebhookMetrics, e: Event)
      requires Valid() && !e.ResetAll? && !e.ResetType?
      requires e.kind in metrics && m == metrics[e.kind]
      modifies m.Repr, this`Repr, this`index
      ensures Valid() && fresh(Repr - old(Repr))
      ensures index == old(index)[e.kind := RecordInType(old(index)[e.kind], e)]
    {
      hide WebhookMetrics.Valid, WebhookMetrics.Model, RecordInType, Separate;
      Touch(m, e);
      Refresh(m, e.kind);
    }

    /** Bring the ghost fields up to date with one changed type. */
    ghost method Refresh(m: WebhookMetrics, kind: string)
      requires this in Repr && index.Keys == metrics.Keys && Separate(metrics)
      requires kind in metrics && m == metrics[kind] && m in Repr && m.Valid() && this !in m.Repr
      requires forall k :: k in metrics && k != kind ==> Owns(k)
      modifies this`Repr, this`index
      ensures Valid() && Repr == old(Repr) + m.Repr && index == old(index)[kind := m.Model()]
    {
      hide WebhookMetrics.Valid, WebhookMetrics.Model, Separate;
      Repr := Repr + m.Repr;
      index := index[kind := m.Model()];
      assert Owns(kind) && forall k :: k in metrics && k != kind ==> Owns(k);
    }

    method Touch(m: WebhookMetrics, e: Event)
      requires Valid() && !e.ResetAll? && !e.ResetType?
      requires e.kind in metrics && m == metrics[e.kind]
      modifies m.Repr
      ensures m.Valid() && fresh(m.Repr - old(m.Repr)) && this !in m.Repr
      ensures m.Model() == RecordInType(old(index)[e.kind], e)
      ensures forall k :: k in metrics && k != e.kind ==>
                metrics[k].Valid() && metrics[k].Model() == index[k]
                && metrics[k].Repr == old(metrics[k].Repr)
      ensures Separate(metrics)
    {
      hide WebhookMetrics.Valid, WebhookMetrics.Model, RecordInType;
      assert forall k :: k in metrics && k != e.kind ==> metrics[k].Repr !! m.Repr && metrics[k] in metrics[k].Repr;
      m.RecordEvent(e);
    }

    method RecordWebhookAttempt(kind: string, domain: string)
      requires Valid()
      modifies Repr
      ensures Valid() && fresh(Repr - old(Repr)) && index == Record(old(index), Attempt(kind, domain))
    {
      RecordEvent(Attempt(kind, domain));
    }

    method RecordWebhookSuccess(kind: string, domain: string)
      requires Valid()
      modifies Repr
      ensures Valid() && fresh(Repr - old(Repr)) && index == Record(old(index), Success(kind, domain))
    {
      RecordEvent(Success(kind, domain));
    }

    method RecordWebhookFailure(kind: string, domain: string, reason: string)
      requires Valid()
      modifies Repr
      ensures Valid() && fresh(Repr - old(Repr)) && index == Record(old(index), Failure(kind, domain, reason))
    {
      RecordEvent(Failure(kind, domain, reason));
    }

    method RecordWebhookDuration(kind: string, domain: string, latency: nat)
      requires Valid()
      modifies Repr
      ensures Valid() && fresh(Repr - old(Repr)) && index == Record(old(index), Duration(kind, domain, latency))
    {
      RecordEvent(Duration(kind, domain, latency));
    }

    method RecordWebhookRetries(kind: string, retries: int)
      requires Valid()
      modifies Repr
      ensures Valid() && fresh(Repr - old(Repr)) && index == Record(old(index), Retries(kind, retries))
    {
      RecordEvent(Retries(kind, retries));
    }

    method ResetMetrics()
      requires Valid()
      modifies this
      ensures Valid() && Repr == {this} && index == Record(old(index), ResetAll)
    {
      metrics, index, Repr := map[], map[], {this};
    }

    method ResetWebhookMetrics(kind: string)
      requires Valid()
      modifies this
      ensures Valid() && Repr == old(Repr) && index == Record(old(index), ResetType(kind))
    {
      metrics := metrics - {kind};
      index := index - {kind};
    }

    /** Any one call that changes the collector. */
    method Apply(e: Event)
      requires Valid()
      modifies Repr
      ensures Valid() && fresh(Repr - old(Repr)) && index == Record(old(index), e)
    {
      hide Valid, WebhookMetrics.Valid;
      match e
      case ResetAll => ResetMetrics();
      case ResetType(kind) => ResetWebhookMetrics(kind);
      case _ => RecordEvent(e);
    }

    /** A snapshot equal to the current metrics. None of its objects belongs to the collector, and
        every method above changes only the collector's own objects, so no later call affects it. */
    method GetWebhookMetrics(kind: string) returns (copy: WebhookMetrics)
      requires Valid()
      ensures Valid() && copy.Valid() && fresh(copy.Repr) && copy.Repr !! Repr
      ensures copy.Model() == TypeOf(index, kind)
    {
      if kind in metrics {
        copy := metrics[kind].Copy();
      } else {
        copy := new WebhookMetrics();
      }
    }
  }

  /** The index after some further events. */
  function RecordFrom(ix: Index, events: seq<Event>): Index {
    if events == [] then ix else Record(RecordFrom(ix, events[..|events| - 1]), events[|events| - 1])
  }

  /** A snapshot taken before an arbitrary sequence of later recordings and resets is still what it was. */
  method SnapshotIsStable(collector: Collector, kind: string, later: seq<Event>) returns (copy: WebhookMetrics)
    requires collector.Valid()
    modifies collector.Repr
    ensures collector.Valid() && collector.index == RecordFrom(old(collector.index), later)
    ensures copy.Valid() && copy.Model() == TypeOf(old(collector.index), kind)
  {
    hide Collector.Valid, WebhookMetrics.Valid;
    copy := collector.GetWebhookMetrics(kind);
    for i := 0 to |later|
      invariant collector.Valid() && fresh(collector.Repr - old(collector.Repr)) && copy.Repr !! collector.Repr
      invariant fresh(copy.Repr) && copy.Valid() && copy.Model() == TypeOf(old(collector.index), kind)
      invariant collector.index == RecordFrom(old(collector.index), later[..i])
    {
      assert later[..i + 1][..i] == later[..i];
      collector.Apply(later[i]);
    }
    assert later[..|later|] == later;
  }
}
