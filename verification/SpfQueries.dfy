/** How many DNS queries an SPF evaluation can cost, cyclic include graphs included. */
module SpfQueries {
  import opened Backoff
  import opened SpfRecord
  import opened Spf

  /** No record has more than m mechanisms and no MX lookup more than k answers. */
  ghost predicate Bounded(env: Env, m: nat, k: nat) {
    && (forall q: nat, d :: GetSPFRecord(env, d, q).Found? ==> |ParseRecord(GetSPFRecord(env, d, q).record)| <= m)
    && (forall q: nat, d :: env.dns(q, d, TypeMX).Reply? ==> |env.dns(q, d, TypeMX).answers| <= k)
  }

  /** m + m^2 + ... + m^n. */
  function PowerSum(m: nat, n: nat): int {
    if n == 0 then 0 else PowerSum(m, n - 1) + Pow(m, n)
  }

  /** The same sum, one include level at a time. */
  function Levels(m: nat, n: nat): nat {
    if n == 0 then 0 else m * (1 + Levels(m, n - 1))
  }

  lemma {:induction false} LevelsIsPowerSum(m: nat, n: nat)
    ensures Levels(m, n) == PowerSum(m, n)
  {
    if n > 0 {
      LevelsIsPowerSum(m, n - 1);
      PowerSumShift(m, n - 1);
    }
  }

  lemma {:induction false} PowerSumShift(m: nat, n: nat)
    ensures m * (1 + PowerSum(m, n)) == PowerSum(m, n + 1)
  {
    if n == 0 {
      assert Pow(m, 0) == 1 && Pow(m, 1) == m * 1;
      assert PowerSum(m, 1) == m;
    } else {
      PowerSumShift(m, n - 1);
      assert m * (1 + (PowerSum(m, n - 1) + Pow(m, n))) == m * (1 + PowerSum(m, n - 1)) + m * Pow(m, n);
    }
  }

  /** The most one mechanism can cost when evaluations below it are bounded by (1 + k) * levels. */
  function PerMechanism(k: nat, levels: nat): nat { (1 + k) * (1 + levels) }

  /** n times p, term by term. */
  function Times(n: nat, p: nat): nat {
    if n == 0 then 0 else p + Times(n - 1, p)
  }

  lemma {:induction false} TimesIsProduct(n: nat, p: nat)
    ensures Times(n, p) == n * p
  {
    if n > 0 {
      TimesIsProduct(n - 1, p);
      assert n * p == (n - 1) * p + p;
    }
  }

  lemma {:induction false} HostsCost(env: Env, answers: seq<Answer>, q: nat)
    ensures q <= EvaluateHosts(env, answers, q).1 <= q + |answers|
  {
    if answers != [] {
      HostsCost(env, answers[1..], q);
      HostsCost(env, answers[1..], q + 1);
    }
  }

  lemma {:induction false} LeafCost(env: Env, m: Mechanism, domain: string, q: nat, mm: nat, k: nat)
    requires IsLeaf(m.name) && Bounded(env, mm, k)
    ensures EvaluateLeaf(env, m, domain, q).1 <= q + 1 + k
  {
    if m.name == "mx" {
      var reply := env.dns(q, if m.value == "" then domain else m.value, TypeMX);
      if reply.Reply? {
        HostsCost(env, reply.answers, q + 1);
      }
    }
  }

  lemma {:induction false} Distribute(k: nat, levels: nat)
    ensures PerMechanism(k, levels) == 1 + k + (1 + k) * levels && 0 <= (1 + k) * levels
  {
  }

  lemma {:induction false} MechanismCost(
    env: Env, m: Mechanism, domain: string, depth: nat, q: nat, mm: nat, k: nat)
    requires depth <= MAX_DEPTH && Bounded(env, mm, k)
    ensures EvaluateMechanism(env, m, domain, depth, q).queries <= q + PerMechanism(k, Levels(mm, Fuel(depth) - 1))
    decreases Fuel(depth), 1, 0
  {
    hide PerMechanism, Levels, EvaluateInclude, EvaluateLeaf, Bounded;
    Distribute(k, Levels(mm, Fuel(depth) - 1));
    if m.name == "include" && m.value != "" {
      IncludeCost(env, m.value, depth, q, mm, k);
    } else if IsLeaf(m.name) {
      LeafCost(env, m, domain, q, mm, k);
    }
  }

  lemma {:induction false} IncludeCost(env: Env, includeDomain: string, depth: nat, q: nat, mm: nat, k: nat)
    requires depth <= MAX_DEPTH && Bounded(env, mm, k)
    ensures EvaluateInclude(env, includeDomain, depth, q).queries <= q + 1 + (1 + k) * Levels(mm, Fuel(depth) - 1)
    decreases Fuel(depth), 0, 0
  {
    Distribute(k, Levels(mm, Fuel(depth) - 1));
    hide PerMechanism, Levels, EvaluateSPF;
    var lookup := GetSPFRecord(env, includeDomain, q);
    if lookup.Found? {
      RecordCost(env, lookup.record, includeDomain, depth + 1, q + 1, mm, k);
    }
  }

  lemma {:induction false} TermsCost(
    env: Env, ms: seq<Mechanism>, domain: string, depth: nat, q: nat, mm: nat, k: nat)
    requires depth <= MAX_DEPTH && Bounded(env, mm, k)
    ensures EvaluateTerms(env, ms, domain, depth, q).queries
            <= q + Times(|ms|, PerMechanism(k, Levels(mm, Fuel(depth) - 1)))
    decreases Fuel(depth), 2, |ms|
  {
    if ms != [] {
      var first := EvaluateMechanism(env, ms[0], domain, depth, q);
      MechanismCost(env, ms[0], domain, depth, q, mm, k);
      TermsCost(env, ms[1..], domain, depth, first.queries, mm, k);
    }
  }

  lemma {:induction false} RecordCost(
    env: Env, record: string, domain: string, depth: nat, q: nat, mm: nat, k: nat)
    requires Bounded(env, mm, k) && |ParseRecord(record)| <= mm
    ensures EvaluateSPF(env, record, domain, depth, q).queries <= q + (1 + k) * Levels(mm, Fuel(depth))
    decreases Fuel(depth), 3, 0
  {
    if depth <= MAX_DEPTH {
      hide Levels, PerMechanism, Times, Bounded, EvaluateTerms;
      TermsCost(env, ParseRecord(record), domain, depth, q, mm, k);
      LevelArithmetic(|ParseRecord(record)|, mm, k, Fuel(depth));
    }
  }

  lemma {:induction false} LevelArithmetic(terms: nat, mm: nat, k: nat, n: nat)
    requires terms <= mm && n >= 1
    ensures Times(terms, PerMechanism(k, Levels(mm, n - 1))) <= (1 + k) * Levels(mm, n)
  {
    hide Times;
    var below := Levels(mm, n - 1);
    var p := PerMechanism(k, below);
    TimesIsProduct(terms, p);
    ScaleBoth(terms, mm, p);
    Reorder(mm, 1 + k, 1 + below);
  }

  lemma {:induction false} Reorder(a: int, b: int, c: int)
    ensures a * (b * c) == b * (a * c)
  {
  }

  /** From depth 0 an evaluation makes at most (1 + k)(m + m^2 + ... + m^11) queries, and `Verify`
      one more for the sender's own record. */
  lemma {:induction false} QueryBound(env: Env, hasSenderIP: bool, senderDomain: string, m: nat, k: nat)
    requires forall q: nat, d ::
               GetSPFRecord(env, d, q).Found? ==> |ParseRecord(GetSPFRecord(env, d, q).record)| <= m
    requires forall q: nat, d :: env.dns(q, d, TypeMX).Reply? ==> |env.dns(q, d, TypeMX).answers| <= k
    ensures forall record, q: nat :: |ParseRecord(record)| <= m
              ==> EvaluateSPF(env, record, senderDomain, 0, q).queries <= q + (1 + k) * PowerSum(m, 11)
    ensures Verify(env, hasSenderIP, senderDomain).queries <= 1 + (1 + k) * PowerSum(m, 11)
  {
    LevelsIsPowerSum(m, 11);
    assert 0 <= (1 + k) * Levels(m, 11);
    forall record, q: nat | |ParseRecord(record)| <= m
      ensures EvaluateSPF(env, record, senderDomain, 0, q).queries <= q + (1 + k) * PowerSum(m, 11)
    {
      RecordCost(env, record, senderDomain, 0, q, m, k);
    }
  }
}
