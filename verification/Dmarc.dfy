/** DMARC alignment and verdict. */
module Dmarc {
  import Spf
  import opened Text

  datatype DmarcStatus = DmarcNone | DmarcPass | DmarcFail | DmarcTempError | DmarcPermError

  datatype Alignment = Strict | Relaxed

  /** A published policy record. */
  datatype Policy = Policy(action: string, spfAlignment: Alignment, dkimAlignment: Alignment)

  datatype PolicyLookup = LookupTempFail | NoPolicy | LookupPermFail | PolicyFound(policy: Policy)

  datatype Signature = Signature(domain: string, passed: bool)

  datatype DkimResult = DkimResult(signatures: seq<Signature>, valid: bool)

  datatype DmarcResult = DmarcResult(status: DmarcStatus, policyAction: string, spfAligned: bool, dkimAligned: bool)

  /** Any character-wise lowercasing: all that matters is that it neither makes nor removes dots. */
  type CaseMap = f: char -> char | forall c :: f(c) == '.' <==> c == '.' witness (c: char) => c

  // ---------- Organizational domains ----------

  /** `strings.Split(s, ".")`: at least one label, none with a dot. */
  function Split(s: string): (labels: seq<string>)
    ensures |labels| >= 1
  {
    if s == "" then [""]
    else
      var rest := Split(s[1..]);
      if s[0] == '.' then [""] + rest else [[s[0]] + rest[0]] + rest[1..]
  }

  /** The last two labels, or the whole name if it has only one. */
  function OrganizationalDomain(s: string): string {
    var labels := Split(s);
    var n := |labels|;
    if n >= 2 then labels[n - 2] + "." + labels[n - 1] else s
  }

  function LowerAll(f: CaseMap, labels: seq<string>): (r: seq<string>)
    ensures |r| == |labels|
  {
    if labels == [] then [] else [ToLower(f, labels[0])] + LowerAll(f, labels[1..])
  }

  lemma {:induction false} LowerAllAt(f: CaseMap, labels: seq<string>, i: nat)
    requires i < |labels|
    ensures LowerAll(f, labels)[i] == ToLower(f, labels[i])
  {
    if i > 0 {
      LowerAllAt(f, labels[1..], i - 1);
    }
  }

  lemma {:induction false} SplitLower(f: CaseMap, s: string)
    ensures Split(ToLower(f, s)) == LowerAll(f, Split(s))
  {
    if s != "" {
      var low := ToLower(f, s);
      assert low[0] == f(s[0]) && low[1..] == ToLower(f, s[1..]);
      SplitLower(f, s[1..]);
      var rest := Split(s[1..]);
      if s[0] == '.' {
        assert ([""] + rest)[1..] == rest;
      } else {
        var head := [s[0]] + rest[0];
        assert head[1..] == rest[0] && ([head] + rest[1..])[1..] == rest[1..];
      }
    }
  }

  /** Lowercasing commutes with taking the organizational domain. */
  lemma {:induction false} OrganizationalDomainLower(f: CaseMap, s: string)
    ensures ToLower(f, OrganizationalDomain(s)) == OrganizationalDomain(ToLower(f, s))
  {
    SplitLower(f, s);
    var labels := Split(s);
    var n := |labels|;
    if n >= 2 {
      LowerAllAt(f, labels, n - 2);
      LowerAllAt(f, labels, n - 1);
      LowerConcat(f, labels[n - 2] + ".", labels[n - 1]);
      LowerConcat(f, labels[n - 2], ".");
      assert ToLower(f, ".") == ".";
    }
  }

  // ---------- Alignment ----------

  predicate Aligned(f: CaseMap, mode: Alignment, a: string, b: string) {
    match mode
    case Strict => ToLower(f, a) == ToLower(f, b)
    case Relaxed => ToLower(f, OrganizationalDomain(a)) == ToLower(f, OrganizationalDomain(b))
  }

  /** The last two labels of a name with a dot in it, written out. */
  lemma {:induction false} LastTwoLabels(rest: string, a: string, b: string)
    requires '.' !in a && '.' !in b
    ensures OrganizationalDomain(a + "." + b) == a + "." + b
    ensures OrganizationalDomain(rest + "." + (a + "." + b)) == a + "." + b
    ensures OrganizationalDomain(a) == a
  {
    TwoLabels(a, b);
    SameOrganization(rest, a + "." + b);
    SplitNoDot(a);
  }

  /** Strict alignment is equality up to case; relaxed alignment of names of two or more labels is
      equality of the last two labels up to case, so two domains below one public suffix are kept apart. */
  lemma {:induction false} AlignedIff(f: CaseMap, s: string, t: string, a1: string, b1: string, a2: string, b2: string)
    requires '.' !in a1 && '.' !in b1 && '.' !in a2 && '.' !in b2
    ensures Aligned(f, Strict, s, t) <==> ToLower(f, s) == ToLower(f, t)
    ensures var left, right := s + "." + (a1 + "." + b1), t + "." + (a2 + "." + b2);
            Aligned(f, Relaxed, left, right) <==> ToLower(f, a1) == ToLower(f, a2) && ToLower(f, b1) == ToLower(f, b2)
    ensures Aligned(f, Relaxed, a1 + "." + b1, a2 + "." + b2)
            <==> ToLower(f, a1) == ToLower(f, a2) && ToLower(f, b1) == ToLower(f, b2)
  {
    LastTwoLabels(s, a1, b1);
    LastTwoLabels(t, a2, b2);
    LoweredPair(f, a1, b1);
    LoweredPair(f, a2, b2);
    var l1, l2 := ToLower(f, a1 + "." + b1), ToLower(f, a2 + "." + b2);
    if l1 == l2 {
      assert Split(l1) == [ToLower(f, a1), ToLower(f, b1)];
      assert Split(l2) == [ToLower(f, a2), ToLower(f, b2)];
    }
  }

  lemma {:induction false} LoweredPair(f: CaseMap, a: string, b: string)
    requires '.' !in a && '.' !in b
    ensures ToLower(f, a + "." + b) == ToLower(f, a) + "." + ToLower(f, b)
    ensures Split(ToLower(f, a + "." + b)) == [ToLower(f, a), ToLower(f, b)]
  {
    LowerConcat(f, a + ".", b);
    LowerConcat(f, a, ".");
    assert ToLower(f, ".") == ".";
    LowerAt(f, a);
    LowerAt(f, b);
    TwoLabels(ToLower(f, a), ToLower(f, b));
  }

  /** Strict alignment implies relaxed alignment, for all domain strings. */
  lemma {:induction false} StrictImpliesRelaxed(f: CaseMap, a: string, b: string)
    requires Aligned(f, Strict, a, b)
    ensures Aligned(f, Relaxed, a, b)
  {
    OrganizationalDomainLower(f, a);
    OrganizationalDomainLower(f, b);
  }

  /** A name of at least two labels is aligned with every name below it and with its own
      organizational domain. */
  lemma {:induction false} SubdomainIsRelaxedAligned(f: CaseMap, sub: string, s: string)
    requires |Split(s)| >= 2
    ensures Aligned(f, Relaxed, sub + "." + s, s)
    ensures OrganizationalDomain(OrganizationalDomain(s)) == OrganizationalDomain(s)
  {
    SameOrganization(sub, s);
    OrganizationIsIdempotent(s);
  }

  lemma {:induction false} SameOrganization(sub: string, s: string)
    requires |Split(s)| >= 2
    ensures OrganizationalDomain(sub + "." + s) == OrganizationalDomain(s)
  {
    hide Split;
    SplitPrepend(sub, s);
    var all, labels := Split(sub + "." + s), Split(s);
    assert all[|all| - 2] == labels[|labels| - 2] && all[|all| - 1] == labels[|labels| - 1];
  }

  lemma {:induction false} OrganizationIsIdempotent(s: string)
    requires |Split(s)| >= 2
    ensures OrganizationalDomain(OrganizationalDomain(s)) == OrganizationalDomain(s)
  {
    hide Split;
    var labels, n := Split(s), |Split(s)|;
    LabelsHaveNoDots(s);
    TwoLabels(labels[n - 2], labels[n - 1]);
  }

  lemma {:induction false} TwoLabels(a: string, b: string)
    requires '.' !in a && '.' !in b
    ensures Split(a + "." + b) == [a, b]
  {
    SplitPrepend(a, b);
    SplitNoDot(a);
    SplitNoDot(b);
  }

  lemma {:induction false} SplitNoDot(s: string)
    requires '.' !in s
    ensures Split(s) == [s]
  {
    if s != "" {
      SplitNoDot(s[1..]);
      assert [s[0]] + s[1..] == s;
    }
  }

  lemma {:induction false} LabelsHaveNoDots(s: string)
    ensures forall i :: 0 <= i < |Split(s)| ==> '.' !in Split(s)[i]
  {
    if s != "" {
      LabelsHaveNoDots(s[1..]);
    }
  }

  lemma {:induction false} SplitPrepend(sub: string, s: string)
    ensures Split(sub + "." + s) == Split(sub) + Split(s)
  {
    var whole := sub + "." + s;
    if sub == "" {
      assert whole[1..] == s;
    } else {
      assert whole[0] == sub[0] && whole[1..] == sub[1..] + "." + s;
      SplitPrepend(sub[1..], s);
      SplitStep(whole, Split(sub[1..]), Split(s));
    }
  }

  lemma {:induction false} SplitStep(whole: string, l: seq<string>, r: seq<string>)
    requires whole != "" && l != [] && Split(whole[1..]) == l + r
    ensures Split(whole) == (if whole[0] == '.' then [""] + l else [[whole[0]] + l[0]] + l[1..]) + r
  {
    if whole[0] == '.' {
      ConsConcat("", l, r);
    } else {
      ConsConcat([whole[0]] + l[0], l[1..], r);
      TailConcat(l, r);
    }
  }

  lemma {:induction false} ConsConcat(x: string, l: seq<string>, r: seq<string>)
    ensures [x] + (l + r) == ([x] + l) + r
  {
  }

  lemma {:induction false} TailConcat(l: seq<string>, r: seq<string>)
    requires l != []
    ensures (l + r)[0] == l[0] && (l + r)[1..] == l[1..] + r
  {
  }

  /** `checkDKIMAlignment`'s search. */
  method CheckDKIMAlignment(f: CaseMap, dkim: DkimResult, mode: Alignment, fromDomain: string) returns (aligned: bool)
    ensures aligned <==> dkim.valid && DkimAligned(f, dkim.signatures, mode, fromDomain)
  {
    hide Aligned;
    if !dkim.valid {
      return false;
    }
    for i := 0 to |dkim.signatures|
      invariant !DkimAligned(f, dkim.signatures[..i], mode, fromDomain)
    {
      var sig := dkim.signatures[i];
      if sig.passed && Aligned(f, mode, sig.domain, fromDomain) {
        return true;
      }
    }
    assert dkim.signatures[..|dkim.signatures|] == dkim.signatures;
    aligned := false;
  }

  predicate DkimAligned(f: CaseMap, sigs: seq<Signature>, mode: Alignment, fromDomain: string) {
    exists i :: 0 <= i < |sigs| && sigs[i].passed && Aligned(f, mode, sigs[i].domain, fromDomain)
  }

  /** `checkSPFAlignment`. The return-path domain is taken from the From header, as the code does. */
  predicate SpfAligned(f: CaseMap, spf: Spf.Status, mode: Alignment, fromDomain: string) {
    spf == Spf.Pass && fromDomain != "" && Aligned(f, mode, fromDomain, fromDomain)
  }

  /** The DKIM verifier's summary: valid exactly when some signature passed. */
  predicate Summarised(dkim: DkimResult) {
    dkim.valid <==> exists i :: 0 <= i < |dkim.signatures| && dkim.signatures[i].passed
  }

  function Verify(f: CaseMap, fromDomain: string, lookup: PolicyLookup, spf: Spf.Status, dkim: DkimResult): DmarcResult {
    if fromDomain == "" then DmarcResult(DmarcPermError, "", false, false)
    else
      match lookup
      case LookupTempFail => DmarcResult(DmarcTempError, "", false, false)
      case NoPolicy => DmarcResult(DmarcNone, "", false, false)
      case LookupPermFail => DmarcResult(DmarcPermError, "", false, false)
      case PolicyFound(p) =>
        var spfAligned := SpfAligned(f, spf, p.spfAlignment, fromDomain);
        var dkimAligned := dkim.valid && DkimAligned(f, dkim.signatures, p.dkimAlignment, fromDomain);
        var pass := (spfAligned && spf == Spf.Pass) || (dkimAligned && dkim.valid);
        DmarcResult(if pass then DmarcPass else DmarcFail, p.action, spfAligned, dkimAligned)
  }

  /** The collecting loop of the DKIM verifier. */
  method SummariseSignatures(sigs: seq<Signature>) returns (dkim: DkimResult)
    ensures dkim.signatures == sigs && Summarised(dkim)
  {
    var mapped: seq<Signature> := [];
    var anyPass := false;
    for i := 0 to |sigs|
      invariant mapped == sigs[..i]
      invariant anyPass <==> exists k :: 0 <= k < i && sigs[k].passed
    {
      if sigs[i].passed {
        anyPass := true;
      }
      mapped := mapped + [sigs[i]];
    }
    dkim := DkimResult(mapped, anyPass);
  }

  /** With a policy, the verdict is pass exactly when SPF passed or some passing signature is aligned:
      the SPF side is always aligned, because both domains come from the From header. */
  lemma {:induction false} PassIff(f: CaseMap, fromDomain: string, p: Policy, spf: Spf.Status, dkim: DkimResult)
    requires fromDomain != "" && Summarised(dkim)
    ensures Verify(f, fromDomain, PolicyFound(p), spf, dkim).status == DmarcPass
            <==> spf == Spf.Pass || DkimAligned(f, dkim.signatures, p.dkimAlignment, fromDomain)
    ensures Verify(f, fromDomain, PolicyFound(p), spf, dkim).status in {DmarcPass, DmarcFail}
  {
    assert Aligned(f, p.spfAlignment, fromDomain, fromDomain);
  }

  /** What the verdict is when there is no policy to apply, and what is reported when there is one. */
  lemma {:induction false} VerdictOnPath(
    f: CaseMap, fromDomain: string, lookup: PolicyLookup, spf: Spf.Status, dkim: DkimResult)
    ensures var r := Verify(f, fromDomain, lookup, spf, dkim);
            && (fromDomain == "" ==> r.status == DmarcPermError)
            && (fromDomain != "" && lookup.LookupTempFail? ==> r.status == DmarcTempError)
            && (fromDomain != "" && lookup.NoPolicy? ==> r.status == DmarcNone)
            && (fromDomain != "" && lookup.LookupPermFail? ==> r.status == DmarcPermError)
            && (fromDomain == "" || !lookup.PolicyFound? ==> r.policyAction == "" && !r.spfAligned && !r.dkimAligned)
            && (fromDomain != "" && lookup.PolicyFound? ==>
                  && r.policyAction == lookup.policy.action
                  && (r.spfAligned <==> spf == Spf.Pass)
                  && (r.dkimAligned <==>
                        dkim.valid
                        && exists i :: 0 <= i < |dkim.signatures| && dkim.signatures[i].passed
                             && Aligned(f, lookup.policy.dkimAlignment, dkim.signatures[i].domain, fromDomain)))
  {
  }

  /** Relaxing a policy's alignment never turns a pass into a fail. */
  lemma {:induction false} RelaxingKeepsPass(
    f: CaseMap, fromDomain: string, p: Policy, relaxed: Policy, spf: Spf.Status, dkim: DkimResult)
    requires relaxed.spfAlignment == p.spfAlignment || relaxed.spfAlignment == Relaxed
    requires relaxed.dkimAlignment == p.dkimAlignment || relaxed.dkimAlignment == Relaxed
    requires Verify(f, fromDomain, PolicyFound(p), spf, dkim).status == DmarcPass
    ensures Verify(f, fromDomain, PolicyFound(relaxed), spf, dkim).status == DmarcPass
  {
    if dkim.valid && DkimAligned(f, dkim.signatures, p.dkimAlignment, fromDomain) {
      var i :| 0 <= i < |dkim.signatures| && dkim.signatures[i].passed
               && Aligned(f, p.dkimAlignment, dkim.signatures[i].domain, fromDomain);
      if p.dkimAlignment == Strict {
        StrictImpliesRelaxed(f, dkim.signatures[i].domain, fromDomain);
      }
      assert Aligned(f, relaxed.dkimAlignment, dkim.signatures[i].domain, fromDomain);
    }
  }
}
