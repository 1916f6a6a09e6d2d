/** SPF evaluation over an arbitrary, possibly cyclic, include graph. The DNS is an oracle that may
    answer differently at every query: it sees how many queries came before. */
module Spf {
  import opened SpfRecord

  datatype Status = None | Neutral | Pass | Fail | SoftFail | TempError | PermError

  datatype Answer = TXT(parts: seq<string>) | A(ip: int) | MX(host: string) | OtherRecord

  datatype QueryType = TypeTXT | TypeA | TypeMX

  datatype Reply = ExchangeError | Reply(rcode: int, answers: seq<Answer>)

  datatype Cidr = BadCidr | Network(containsSender: bool)

  /** Everything outside the evaluator: the DNS, CIDR parsing and containment of the sender's address,
      and macro expansion of an `exists` name in the current domain. */
  datatype Env = Env(
    dns: (nat, string, QueryType) -> Reply,
    cidr: string -> Cidr,
    expand: (string, string) -> string,
    senderIP: int)

  /** `queries` counts all DNS queries made up to this point; `guardHit` records that some evaluation
      was cut off by the depth guard. */
  datatype Outcome = Outcome(status: Status, queries: nat, guardHit: bool)

  const MAX_DEPTH: nat := 10

  // ---------- Lookups and leaf mechanisms ----------

  datatype Lookup = LookupError | NoRecord | Found(record: string)

  function Join(parts: seq<string>): string {
    if parts == [] then "" else parts[0] + Join(parts[1..])
  }

  function FirstSpf(answers: seq<Answer>): Lookup {
    if answers == [] then NoRecord
    else if answers[0].TXT? && HasPrefix(Join(answers[0].parts), SPF_VERSION) then Found(Join(answers[0].parts))
    else FirstSpf(answers[1..])
  }

  /** `getSPFRecord` as query number q. */
  function GetSPFRecord(env: Env, domain: string, q: nat): Lookup {
    match env.dns(q, domain, TypeTXT)
    case ExchangeError => LookupError
    case Reply(rcode, answers) => if rcode != 0 then LookupError else FirstSpf(answers)
  }

  datatype Leaf = Match | NoMatch | LeafError

  /** `evaluateA`: the reply code is not looked at. */
  function EvaluateA(env: Env, name: string, q: nat): Leaf {
    match env.dns(q, name, TypeA)
    case ExchangeError => LeafError
    case Reply(_, answers) => if A(env.senderIP) in answers then Match else NoMatch
  }

  /** The loop over MX answers: a failing address lookup is skipped, the first hit stops. */
  function EvaluateHosts(env: Env, answers: seq<Answer>, q: nat): (Leaf, nat) {
    if answers == [] then (NoMatch, q)
    else if !answers[0].MX? then EvaluateHosts(env, answers[1..], q)
    else if EvaluateA(env, answers[0].host, q) == Match then (Match, q + 1)
    else EvaluateHosts(env, answers[1..], q + 1)
  }

  function EvaluateMX(env: Env, name: string, q: nat): (Leaf, nat) {
    match env.dns(q, name, TypeMX)
    case ExchangeError => (LeafError, q + 1)
    case Reply(_, answers) => EvaluateHosts(env, answers, q + 1)
  }

  function EvaluateExists(env: Env, name: string, q: nat): Leaf {
    match env.dns(q, name, TypeA)
    case ExchangeError => LeafError
    case Reply(_, answers) => if answers != [] then Match else NoMatch
  }

  function EvaluateCidr(env: Env, value: string, defaultPrefix: string): Leaf {
    match env.cidr(if '/' in value then value else value + defaultPrefix)
    case BadCidr => LeafError
    case Network(contains) => if contains then Match else NoMatch
  }

  predicate IsLeaf(name: string) { name in {"all", "a", "mx", "ip4", "ip6", "exists"} }

  /** Whether a leaf mechanism matches the sender, and the query count afterwards. */
  function EvaluateLeaf(env: Env, m: Mechanism, domain: string, q: nat): (Leaf, nat)
    requires IsLeaf(m.name)
  {
    var target := if m.value == "" then domain else m.value;
    if m.name == "all" then (Match, q)
    else if m.name == "a" then (EvaluateA(env, target, q), q + 1)
    else if m.name == "mx" then EvaluateMX(env, target, q)
    else if m.name == "ip4" then (EvaluateCidr(env, m.value, "/32"), q)
    else if m.name == "ip6" then (EvaluateCidr(env, m.value, "/128"), q)
    else (EvaluateExists(env, env.expand(m.value, domain), q), q + 1)
  }

  function QualifierToResult(qualifier: char): Status {
    if qualifier == '+' then Pass
    else if qualifier == '-' then Fail
    else if qualifier == '~' then SoftFail
    else Neutral
  }

  // ---------- The evaluator ----------

  function Fuel(depth: nat): nat { if depth > MAX_DEPTH then 0 else MAX_DEPTH + 1 - depth }

  function EvaluateSPF(env: Env, record: string, domain: string, depth: nat, q: nat): Outcome
    decreases Fuel(depth), 3, 0
  {
    if depth > MAX_DEPTH then Outcome(PermError, q, true)
    else EvaluateTerms(env, ParseRecord(record), domain, depth, q)
  }

  /** The loop over mechanisms: the first result other than Neutral is the verdict. */
  function EvaluateTerms(env: Env, ms: seq<Mechanism>, domain: string, depth: nat, q: nat): Outcome
    requires depth <= MAX_DEPTH
    decreases Fuel(depth), 2, |ms|
  {
    if ms == [] then Outcome(Neutral, q, false)
    else
      var first := EvaluateMechanism(env, ms[0], domain, depth, q);
      if first.status != Neutral then first
      else
        var rest := EvaluateTerms(env, ms[1..], domain, depth, first.queries);
        rest.(guardHit := first.guardHit || rest.guardHit)
  }

  function EvaluateMechanism(env: Env, m: Mechanism, domain: string, depth: nat, q: nat): Outcome
    requires depth <= MAX_DEPTH
    decreases Fuel(depth), 1, 0
  {
    if m.name == "include" then
      if m.value == "" then Outcome(PermError, q, false) else EvaluateInclude(env, m.value, depth, q)
    else if IsLeaf(m.name) then
      var (leaf, q') := EvaluateLeaf(env, m, domain, q);
      match leaf
      case LeafError => Outcome(TempError, q', false)
      case Match => Outcome(QualifierToResult(m.qualifier), q', false)
      case NoMatch => Outcome(Neutral, q', false)
    else Outcome(Neutral, q, false)
  }

  function EvaluateInclude(env: Env, includeDomain: string, depth: nat, q: nat): Outcome
    requires depth <= MAX_DEPTH
    decreases Fuel(depth), 0, 0
  {
    match GetSPFRecord(env, includeDomain, q)
    case LookupError => Outcome(TempError, q + 1, false)
    case NoRecord => Outcome(PermError, q + 1, false)
    case Found(record) =>
      var r := EvaluateSPF(env, record, includeDomain, depth + 1, q + 1);
      match r.status
      case Pass => r
      case Fail => r.(status := Neutral)
      case SoftFail => r.(status := Neutral)
      case _ => r
  }

  /** `Verify` from the extracted sender domain on. */
  function Verify(env: Env, hasSenderIP: bool, senderDomain: string): Outcome {
    if !hasSenderIP then Outcome(None, 0, false)
    else if senderDomain == "" then Outcome(PermError, 0, false)
    else
      match GetSPFRecord(env, senderDomain, 0)
      case LookupError => Outcome(TempError, 1, false)
      case NoRecord => Outcome(None, 1, false)
      case Found(record) => EvaluateSPF(env, record, senderDomain, 0, 1)
  }

  // ---------- The depth guard ----------

  /** If any evaluation anywhere below was cut off by the depth guard, the verdict is PermError. */
  lemma {:induction false} GuardHitIsPermError(env: Env, record: string, domain: string, depth: nat, q: nat)
    ensures EvaluateSPF(env, record, domain, depth, q).guardHit
            ==> EvaluateSPF(env, record, domain, depth, q).status == PermError
    decreases Fuel(depth), 3, 0
  {
    if depth <= MAX_DEPTH {
      GuardHitTerms(env, ParseRecord(record), domain, depth, q);
    }
  }

  lemma {:induction false} GuardHitTerms(env: Env, ms: seq<Mechanism>, domain: string, depth: nat, q: nat)
    requires depth <= MAX_DEPTH
    ensures EvaluateTerms(env, ms, domain, depth, q).guardHit
            ==> EvaluateTerms(env, ms, domain, depth, q).status == PermError
    decreases Fuel(depth), 2, |ms|
  {
    if ms != [] {
      var first := EvaluateMechanism(env, ms[0], domain, depth, q);
      if ms[0].name == "include" && ms[0].value != "" {
        assert first == EvaluateInclude(env, ms[0].value, depth, q);
        GuardHitInclude(env, ms[0].value, depth, q);
      }
      GuardHitTerms(env, ms[1..], domain, depth, first.queries);
    }
  }

  lemma {:induction false} GuardHitInclude(env: Env, includeDomain: string, depth: nat, q: nat)
    requires depth <= MAX_DEPTH
    ensures EvaluateInclude(env, includeDomain, depth, q).guardHit
            ==> EvaluateInclude(env, includeDomain, depth, q).status == PermError
    decreases Fuel(depth), 0, 0
  {
    var lookup := GetSPFRecord(env, includeDomain, q);
    if lookup.Found? {
      GuardHitIsPermError(env, lookup.record, includeDomain, depth + 1, q + 1);
    }
  }

  /** A verdict other than PermError does not depend on the starting depth: starting less deep gives
      the same verdict after the same queries. */
  lemma {:induction false} DepthMonotone(
    env: Env, record: string, domain: string, shallow: nat, depth: nat, q: nat)
    requires shallow <= depth
    requires EvaluateSPF(env, record, domain, depth, q).status != PermError
    ensures EvaluateSPF(env, record, domain, shallow, q) == EvaluateSPF(env, record, domain, depth, q)
    decreases Fuel(depth), 3, 0
  {
    DepthMonotoneTerms(env, ParseRecord(record), domain, shallow, depth, q);
  }

  lemma {:induction false} DepthMonotoneTerms(
    env: Env, ms: seq<Mechanism>, domain: string, shallow: nat, depth: nat, q: nat)
    requires shallow <= depth <= MAX_DEPTH
    requires EvaluateTerms(env, ms, domain, depth, q).status != PermError
    ensures EvaluateTerms(env, ms, domain, shallow, q) == EvaluateTerms(env, ms, domain, depth, q)
    decreases Fuel(depth), 2, |ms|
  {
    if ms != [] {
      var first := EvaluateMechanism(env, ms[0], domain, depth, q);
      if ms[0].name == "include" && ms[0].value != "" {
        assert first == EvaluateInclude(env, ms[0].value, depth, q);
        DepthMonotoneInclude(env, ms[0].value, shallow, depth, q);
      }
      assert EvaluateMechanism(env, ms[0], domain, shallow, q) == first;
      if first.status == Neutral {
        DepthMonotoneTerms(env, ms[1..], domain, shallow, depth, first.queries);
      }
    }
  }

  lemma {:induction false} DepthMonotoneInclude(
    env: Env, includeDomain: string, shallow: nat, depth: nat, q: nat)
    requires shallow <= depth <= MAX_DEPTH
    requires EvaluateInclude(env, includeDomain, depth, q).status != PermError
    ensures EvaluateInclude(env, includeDomain, shallow, q) == EvaluateInclude(env, includeDomain, depth, q)
    decreases Fuel(depth), 0, 0
  {
    var lookup := GetSPFRecord(env, includeDomain, q);
    if lookup.Found? {
      DepthMonotone(env, lookup.record, includeDomain, shallow + 1, depth + 1, q + 1);
    }
  }
}
