/** Sender reputation and the accept / quarantine / reject decision, with exact real scores. */
module SpamDecision {
  import Spf
  import opened Dmarc

  datatype IPReputation = IPUnknown | IPGood | IPSuspicious | IPBad

  datatype DomainReputation = DomainUnknown | DomainGood | DomainSuspicious | DomainBad

  datatype Reputation = Reputation(
    ip: IPReputation, domain: DomainReputation, blacklisted: seq<string>, score: real, failed: bool)

  datatype Action = Accept | Quarantine | Reject | TempFail

  datatype Config = Config(
    enableDKIM: bool, enableContent: bool, spamThreshold: real, rejectOnFail: bool, quarantineMode: bool)

  /** The evidence the decision looks at. */
  datatype Evidence = Evidence(
    spf: Spf.Status, dkimValid: bool, dmarc: DmarcStatus, dmarcPolicy: string,
    reputation: Reputation, contentScore: real)

  // ---------- Reputation ----------

  /** What DNS says about the sender: blacklist hits and the domain-age hints. */
  datatype Sender = Sender(
    hasIP: bool, privateIP: bool, ipListed: string -> bool,
    hasDomain: bool, domainListed: string -> bool,
    hasMX: bool, multipleA: bool, suspiciousTLD: bool)

  const IP_BLACKLISTS: seq<string> :=
    ["zen.spamhaus.org", "bl.spamcop.net", "dnsbl.sorbs.net", "b.barracudacentral.org",
     "cbl.abuseat.org", "psbl.surriel.com", "ubl.unsubscore.com"]

  const DOMAIN_BLACKLISTS: seq<string> := ["dbl.spamhaus.org", "surbl.org", "uribl.com", "multi.surbl.org"]

  /** The lists among `lists` that name the sender, in order. */
  function Hits(lists: seq<string>, listed: string -> bool): seq<string> {
    if lists == [] then []
    else Hits(lists[..|lists| - 1], listed)
         + if listed(lists[|lists| - 1]) then [lists[|lists| - 1]] else []
  }

  function IPVerdict(count: nat): (IPReputation, real) {
    if count == 0 then (IPGood, 0.1) else if count <= 2 then (IPSuspicious, -0.2) else (IPBad, -0.5)
  }

  /** `checkDomainAge`. */
  function AgeScore(s: Sender): real {
    (if s.hasMX then 0.1 else 0.0) + (if s.multipleA then 0.05 else 0.0) - (if s.suspiciousTLD then 0.2 else 0.0)
  }

  function DomainVerdict(count: nat, age: real): (DomainReputation, real) {
    if count == 0 then if age >= 0.0 then (DomainGood, age + 0.1) else (DomainSuspicious, age)
    else if count <= 1 then (DomainSuspicious, age - 0.2)
    else (DomainBad, age - 0.5)
  }

  function Clamp(x: real): (r: real)
    ensures 0.0 <= r <= 1.0 && (0.0 <= x <= 1.0 ==> r == x)
    ensures (x <= 0.0 ==> r == 0.0) && (x >= 1.0 ==> r == 1.0)
  {
    if x < 0.0 then 0.0 else if x > 1.0 then 1.0 else x
  }

  function IPHits(s: Sender): seq<string> {
    if s.hasIP && !s.privateIP then Hits(IP_BLACKLISTS, s.ipListed) else []
  }

  function DomainHits(s: Sender): seq<string> {
    if s.hasDomain then Hits(DOMAIN_BLACKLISTS, s.domainListed) else []
  }

  function ReputationOf(s: Sender): Reputation {
    var (ip, ipScore) := if !s.hasIP then (IPUnknown, 0.0) else IPVerdict(|IPHits(s)|);
    var (domain, domainScore) :=
      if !s.hasDomain then (DomainUnknown, 0.0) else DomainVerdict(|DomainHits(s)|, AgeScore(s));
    Reputation(ip, domain, IPHits(s) + DomainHits(s), Clamp(0.5 + ipScore + domainScore), false)
  }

  /** The loop over blacklists in `checkIPReputation` and `checkDomainReputation`. */
  method CollectHits(lists: seq<string>, listed: string -> bool) returns (blacklists: seq<string>, count: nat)
    ensures blacklists == Hits(lists, listed) && count == |blacklists|
  {
    blacklists, count := [], 0;
    for i := 0 to |lists|
      invariant blacklists == Hits(lists[..i], listed) && count == |blacklists|
    {
      assert lists[..i + 1][..i] == lists[..i];
      if listed(lists[i]) {
        blacklists := blacklists + [lists[i]];
        count := count + 1;
      }
    }
    assert lists[..|lists|] == lists;
  }

  /** `ReputationVerifier.Verify`. */
  method VerifyReputation(s: Sender) returns (r: Reputation)
    ensures r == ReputationOf(s)
  {
    r := Reputation(IPUnknown, DomainUnknown, [], 0.5, false);
    if s.hasIP {
      var hits, count := [], 0;
      if !s.privateIP {
        hits, count := CollectHits(IP_BLACKLISTS, s.ipListed);
      }
      var (status, adjustment) := IPVerdict(count);
      r := r.(ip := status, blacklisted := r.blacklisted + hits, score := r.score + adjustment);
    }
    if s.hasDomain {
      var hits, count := CollectHits(DOMAIN_BLACKLISTS, s.domainListed);
      var (status, adjustment) := DomainVerdict(count, AgeScore(s));
      r := r.(domain := status, blacklisted := r.blacklisted + hits, score := r.score + adjustment);
    }
    r := r.(score := Clamp(r.score));
  }

  // ---------- Risk and action ----------

  function SpfRisk(s: Spf.Status): real {
    match s
    case Fail => 0.3
    case SoftFail => 0.1
    case TempError => 0.05
    case PermError => 0.05
    case _ => 0.0
  }

  function DmarcRisk(s: DmarcStatus): real {
    match s
    case DmarcFail => 0.4
    case DmarcTempError => 0.1
    case DmarcPermError => 0.1
    case _ => 0.0
  }

  function IPRisk(r: IPReputation): real {
    if r == IPBad then 0.5 else if r == IPSuspicious then 0.2 else 0.0
  }

  function DomainRisk(r: DomainReputation): real {
    if r == DomainBad then 0.4 else if r == DomainSuspicious then 0.15 else 0.0
  }

  function RiskScore(c: Config, e: Evidence): real {
    SpfRisk(e.spf) + (if c.enableDKIM && !e.dkimValid then 0.2 else 0.0) + DmarcRisk(e.dmarc)
    + IPRisk(e.reputation.ip) + DomainRisk(e.reputation.domain)
    + (1.0 - e.reputation.score) * 0.3
    + (if c.enableContent then e.contentScore * 0.4 else 0.0)
    + (|e.reputation.blacklisted| as real) * 0.2
  }

  /** The failures that are always rejected when the configuration says so. */
  predicate Critical(e: Evidence) {
    e.spf == Spf.Fail || (e.dmarc == DmarcFail && e.dmarcPolicy == "reject") || |e.reputation.blacklisted| >= 3
  }

  function RiskScoreToAction(c: Config, risk: real, e: Evidence): Action {
    if c.rejectOnFail && Critical(e) then Reject
    else if risk >= c.spamThreshold then
      if c.quarantineMode then Quarantine else if c.rejectOnFail then Reject else Quarantine
    else if risk >= 0.5 then Quarantine
    else if e.spf == Spf.TempError || e.dmarc == DmarcTempError || e.reputation.failed then TempFail
    else Accept
  }

  function ActionFor(c: Config, e: Evidence): Action { RiskScoreToAction(c, RiskScore(c, e), e) }

  predicate IsSpam(a: Action) { a == Reject || a == Quarantine }

  /** `determineAction`: the score is accumulated check by check. */
  method DetermineAction(c: Config, e: Evidence) returns (a: Action)
    ensures a == ActionFor(c, e)
  {
    var risk := 0.0;
    risk := risk + SpfRisk(e.spf);
    if c.enableDKIM && !e.dkimValid {
      risk := risk + 0.2;
    }
    risk := risk + DmarcRisk(e.dmarc);
    risk := risk + IPRisk(e.reputation.ip);
    risk := risk + DomainRisk(e.reputation.domain);
    risk := risk + (1.0 - e.reputation.score) * 0.3;
    if c.enableContent {
      risk := risk + e.contentScore * 0.4;
    }
    if |e.reputation.blacklisted| > 0 {
      risk := risk + (|e.reputation.blacklisted| as real) * 0.2;
    }
    a := RiskScoreToAction(c, risk, e);
  }

  // ---------- Worse evidence ----------

  predicate WorseReputation(r: Reputation, w: Reputation) {
    && IPRisk(r.ip) <= IPRisk(w.ip) && DomainRisk(r.domain) <= DomainRisk(w.domain)
    && |r.blacklisted| <= |w.blacklisted| && w.score <= r.score
  }

  /** Every component of w is at least as damning as that of e. */
  predicate Worse(e: Evidence, w: Evidence) {
    && SpfRisk(e.spf) <= SpfRisk(w.spf)
    && (w.dkimValid ==> e.dkimValid)
    && DmarcRisk(e.dmarc) <= DmarcRisk(w.dmarc)
    && (e.dmarc == DmarcFail && e.dmarcPolicy == "reject" ==> w.dmarcPolicy == "reject")
    && WorseReputation(e.reputation, w.reputation)
    && e.contentScore <= w.contentScore
  }

  /** What counts as worse: nothing less than the same, and any one finding made graver. */
  lemma {:induction false} WorseCases(e: Evidence, x: real)
    requires x >= 0.0
    ensures Worse(e, e)
    ensures Worse(e, e.(spf := Spf.Fail)) && Worse(e.(spf := Spf.Pass), e) && Worse(e.(spf := Spf.Neutral), e)
    ensures Worse(e.(spf := Spf.PermError), e.(spf := Spf.SoftFail))
    ensures Worse(e, e.(dkimValid := false)) && Worse(e, e.(contentScore := e.contentScore + x))
    ensures Worse(e.(dmarc := DmarcPass), e) && Worse(e.(dmarc := DmarcTempError), e.(dmarc := DmarcPermError))
    ensures Worse(e, e.(dmarc := DmarcFail, dmarcPolicy := "reject"))
    ensures var r := e.reputation;
            Worse(e, e.(reputation := r.(ip := IPBad, domain := DomainBad, score := r.score - x)))
            && Worse(e.(reputation := r.(blacklisted := [])), e)
  {
  }

  lemma {:induction false} RiskMonotone(c: Config, e: Evidence, w: Evidence)
    requires Worse(e, w)
    ensures RiskScore(c, e) <= RiskScore(c, w)
  {
    var m, n := |e.reputation.blacklisted|, |w.reputation.blacklisted|;
    assert (m as real) * 0.2 <= (n as real) * 0.2;
  }

  /** Exactly which evidence is spam and which is rejected. */
  lemma {:induction false} SpamAndRejectSets(c: Config, e: Evidence)
    ensures IsSpam(ActionFor(c, e)) <==> ActionFor(c, e) == Reject || ActionFor(c, e) == Quarantine
    ensures Critical(e) <==> e.spf == Spf.Fail || (e.dmarc == DmarcFail && e.dmarcPolicy == "reject")
                             || |e.reputation.blacklisted| >= 3
    ensures IsSpam(ActionFor(c, e))
            <==> (c.rejectOnFail && Critical(e)) || RiskScore(c, e) >= c.spamThreshold || RiskScore(c, e) >= 0.5
    ensures ActionFor(c, e) == Reject
            <==> c.rejectOnFail && (Critical(e) || (RiskScore(c, e) >= c.spamThreshold && !c.quarantineMode))
  {
  }

  /** The two ways of not being spam: a temporary failure somewhere, or nothing wrong at all. */
  lemma {:induction false} AcceptAndTempFail(c: Config, e: Evidence)
    ensures ActionFor(c, e) == TempFail
            <==> !IsSpam(ActionFor(c, e)) && (e.spf == Spf.TempError || e.dmarc == DmarcTempError || e.reputation.failed)
    ensures ActionFor(c, e) == Accept
            <==> !IsSpam(ActionFor(c, e)) && e.spf != Spf.TempError && e.dmarc != DmarcTempError && !e.reputation.failed
    ensures ActionFor(c, e) == Quarantine
            <==> !(c.rejectOnFail && (e.spf == Spf.Fail || (e.dmarc == DmarcFail && e.dmarcPolicy == "reject")
                                      || |e.reputation.blacklisted| >= 3))
                 && (if RiskScore(c, e) >= c.spamThreshold then c.quarantineMode || !c.rejectOnFail
                     else RiskScore(c, e) >= 0.5)
  {
  }

  /** Nothing found: the best standing, every check passed. */
  const SPOTLESS := Evidence(Spf.Pass, true, DmarcPass, "none", Reputation(IPGood, DomainGood, [], 1.0, false), 0.0)

  /** What each finding adds to the risk of any message, in numbers. */
  lemma {:induction false} RiskInNumbers(c: Config, e: Evidence, x: real, lists: seq<string>)
    ensures RiskScore(c, SPOTLESS) == 0.0
    ensures var clean := RiskScore(c, e.(spf := Spf.Pass));
            && RiskScore(c, e.(spf := Spf.Fail)) == clean + 0.3
            && RiskScore(c, e.(spf := Spf.SoftFail)) == clean + 0.1
            && RiskScore(c, e.(spf := Spf.TempError)) == clean + 0.05
            && RiskScore(c, e.(spf := Spf.PermError)) == clean + 0.05
            && RiskScore(c, e.(spf := Spf.None)) == clean && RiskScore(c, e.(spf := Spf.Neutral)) == clean
    ensures RiskScore(c, e.(dkimValid := false))
            == RiskScore(c, e.(dkimValid := true)) + if c.enableDKIM then 0.2 else 0.0
    ensures var clean := RiskScore(c, e.(dmarc := DmarcPass));
            && RiskScore(c, e.(dmarc := DmarcFail)) == clean + 0.4
            && RiskScore(c, e.(dmarc := DmarcTempError)) == clean + 0.1
            && RiskScore(c, e.(dmarc := DmarcPermError)) == clean + 0.1
            && RiskScore(c, e.(dmarc := DmarcNone)) == clean
    ensures RiskScore(c, e.(contentScore := e.contentScore + x))
            == RiskScore(c, e) + if c.enableContent then 0.4 * x else 0.0
  {
  }

  /** What the sender's reputation adds, in numbers. */
  lemma {:induction false} ReputationRiskInNumbers(c: Config, e: Evidence, x: real, lists: seq<string>)
    ensures var r := e.reputation; var clean := RiskScore(c, e.(reputation := r.(ip := IPGood)));
            && RiskScore(c, e.(reputation := r.(ip := IPBad))) == clean + 0.5
            && RiskScore(c, e.(reputation := r.(ip := IPSuspicious))) == clean + 0.2
            && RiskScore(c, e.(reputation := r.(ip := IPUnknown))) == clean
    ensures var r := e.reputation; var clean := RiskScore(c, e.(reputation := r.(domain := DomainGood)));
            && RiskScore(c, e.(reputation := r.(domain := DomainBad))) == clean + 0.4
            && RiskScore(c, e.(reputation := r.(domain := DomainSuspicious))) == clean + 0.15
            && RiskScore(c, e.(reputation := r.(domain := DomainUnknown))) == clean
    ensures RiskScore(c, e.(reputation := e.reputation.(score := e.reputation.score - x))) == RiskScore(c, e) + 0.3 * x
    ensures RiskScore(c, e.(reputation := e.reputation.(blacklisted := lists)))
            == RiskScore(c, e.(reputation := e.reputation.(blacklisted := []))) + 0.2 * |lists| as real
  {
  }

  /** Worse evidence never moves a message out of the spam set or out of the reject set. */
  lemma {:induction false} WorseNeverHelps(c: Config, e: Evidence, w: Evidence)
    requires Worse(e, w)
    ensures IsSpam(ActionFor(c, e)) ==> IsSpam(ActionFor(c, w))
    ensures ActionFor(c, e) == Reject ==> ActionFor(c, w) == Reject
  {
    RiskMonotone(c, e, w);
    assert Critical(e) ==> Critical(w);
  }

  // ---------- Blacklists ----------

  ghost predicate ListedMore(a: string -> bool, b: string -> bool) { forall l :: a(l) ==> b(l) }

  lemma {:induction false} HitsMonotone(lists: seq<string>, a: string -> bool, b: string -> bool)
    requires ListedMore(a, b)
    ensures |Hits(lists, a)| <= |Hits(lists, b)|
  {
    if lists != [] {
      HitsMonotone(lists[..|lists| - 1], a, b);
    }
  }

  lemma {:induction false} SomeHit(lists: seq<string>, listed: string -> bool, i: nat)
    requires i < |lists| && listed(lists[i])
    ensures Hits(lists, listed) != []
  {
    if i < |lists| - 1 {
      SomeHit(lists[..|lists| - 1], listed, i);
    }
  }

  lemma {:induction false} HitsMembers(lists: seq<string>, listed: string -> bool)
    ensures forall l :: l in Hits(lists, listed) <==> l in lists && listed(l)
  {
    if lists != [] {
      var n := |lists| - 1;
      HitsMembers(lists[..n], listed);
      assert lists == lists[..n] + [lists[n]];
    }
  }

  /** The reputation of a sender in numbers: 0.5, adjusted for the listings of the address and of the
      domain and for the hints at the domain's age, kept between 0 and 1. */
  lemma {:induction false} ReputationInNumbers(s: Sender)
    ensures var r := ReputationOf(s); var m, n := |IPHits(s)|, |DomainHits(s)|;
            var age := (if s.hasMX then 0.1 else 0.0) + (if s.multipleA then 0.05 else 0.0)
                       - (if s.suspiciousTLD then 0.2 else 0.0);
            var ip := if !s.hasIP then 0.0 else if m == 0 then 0.1 else if m <= 2 then -0.2 else -0.5;
            var domain := if !s.hasDomain then 0.0
                          else if n == 0 then (if age >= 0.0 then age + 0.1 else age)
                          else if n == 1 then age - 0.2 else age - 0.5;
            var sum := 0.5 + ip + domain;
            && r.score == (if sum < 0.0 then 0.0 else if sum > 1.0 then 1.0 else sum)
            && r.ip == (if !s.hasIP then IPUnknown else if m == 0 then IPGood else if m <= 2 then IPSuspicious else IPBad)
            && r.domain == (if !s.hasDomain then DomainUnknown
                            else if n == 0 then (if age >= 0.0 then DomainGood else DomainSuspicious)
                            else if n == 1 then DomainSuspicious else DomainBad)
            && r.blacklisted == IPHits(s) + DomainHits(s) && !r.failed
    ensures forall l :: l in IPHits(s) <==>
              s.hasIP && !s.privateIP && s.ipListed(l)
              && l in {"zen.spamhaus.org", "bl.spamcop.net", "dnsbl.sorbs.net", "b.barracudacentral.org",
                       "cbl.abuseat.org", "psbl.surriel.com", "ubl.unsubscore.com"}
    ensures forall l :: l in DomainHits(s) <==>
              s.hasDomain && s.domainListed(l) && l in {"dbl.spamhaus.org", "surbl.org", "uribl.com", "multi.surbl.org"}
  {
    HitsMembers(IP_BLACKLISTS, s.ipListed);
    HitsMembers(DOMAIN_BLACKLISTS, s.domainListed);
  }

  /** Being found on more blacklists makes the whole reputation worse. */
  lemma {:induction false} MoreListingsAreWorse(s: Sender, t: Sender)
    requires t == s.(ipListed := t.ipListed, domainListed := t.domainListed)
    requires forall l :: (s.ipListed(l) ==> t.ipListed(l)) && (s.domainListed(l) ==> t.domainListed(l))
    ensures WorseReputation(ReputationOf(s), ReputationOf(t))
  {
    HitsMonotone(IP_BLACKLISTS, s.ipListed, t.ipListed);
    HitsMonotone(DOMAIN_BLACKLISTS, s.domainListed, t.domainListed);
    assert AgeScore(s) == AgeScore(t);
  }

  /** A public sender address on even one blacklist: always quarantined or rejected, whatever the
      threshold, the domain's standing and the other checks say. */
  lemma {:induction false} BlacklistedIsSpam(c: Config, e: Evidence, s: Sender, i: nat)
    requires s.hasIP && !s.privateIP && i < |IP_BLACKLISTS| && s.ipListed(IP_BLACKLISTS[i])
    requires e.reputation == ReputationOf(s) && e.contentScore >= 0.0
    ensures RiskScore(c, e) >= 0.535
    ensures IsSpam(ActionFor(c, e))
  {
    SomeHit(IP_BLACKLISTS, s.ipListed, i);
    var n := |e.reputation.blacklisted|;
    assert n >= 1 && (n as real) * 0.2 >= 0.2;
    assert e.reputation.score <= 0.55;
  }

  /** The bound is met: the best-looking sender with one listing, everything else in order. */
  lemma {:induction false} BlacklistBoundIsSharp(c: Config, s: Sender) returns (e: Evidence)
    requires s.hasIP && !s.privateIP && |IPHits(s)| == 1
    requires s.hasDomain && DomainHits(s) == [] && s.hasMX && s.multipleA && !s.suspiciousTLD
    ensures e.reputation == ReputationOf(s) && RiskScore(c, e) == 0.535
  {
    e := Evidence(Spf.Pass, true, DmarcPass, "none", ReputationOf(s), 0.0);
  }
}
