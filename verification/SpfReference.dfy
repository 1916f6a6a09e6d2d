/** A reference evaluator for check_host in the shape of RFC 7208, with its own record selection
    (sections 4.3 to 4.5), its own reading of a record as directives and modifiers (section 4.6.1), the
    first matching directive deciding (section 4.6.2), include (section 5.2) and redirect (section 6.1). */
module SpfReference {
  import opened SpfRecord
  import opened Spf

  datatype MatchResult = Matched | NotMatched | Temp | Perm

  datatype RefMatch = RefMatch(result: MatchResult, queries: nat)

  datatype RefOutcome = RefOutcome(status: Status, queries: nat)

  // ---------- Looking a record up ----------

  datatype RefLookup = RefTemp | RefPerm | RefNone | RefRecord(record: string)

  const NAME_ERROR: int := 3

  /** Section 4.5: the version section is exactly `v=spf1`, ended by a space or by the record's end. */
  predicate IsVersion1(text: string) { text == SPF_VERSION || HasPrefix(text, SPF_VERSION + " ") }

  /** The records that remain after those of other versions are discarded. */
  function Select(answers: seq<Answer>): seq<string> {
    if answers == [] then []
    else if answers[0].TXT? && IsVersion1(Join(answers[0].parts)) then [Join(answers[0].parts)] + Select(answers[1..])
    else Select(answers[1..])
  }

  /** A name error means there is no record; every other failure is temporary; more than one record
      of the version is a permanent error. */
  function FetchRecord(env: Env, domain: string, q: nat): RefLookup {
    match env.dns(q, domain, TypeTXT)
    case ExchangeError => RefTemp
    case Reply(rcode, answers) =>
      if rcode == NAME_ERROR then RefNone
      else if rcode != 0 then RefTemp
      else
        var records := Select(answers);
        if records == [] then RefNone else if |records| > 1 then RefPerm else RefRecord(records[0])
  }

  // ---------- Reading a record ----------

  predicate IsAlpha(c: char) { 'a' <= c <= 'z' || 'A' <= c <= 'Z' }

  predicate IsNameChar(c: char) { IsAlpha(c) || '0' <= c <= '9' || c == '-' || c == '_' || c == '.' }

  /** A modifier is a name, an equals sign and a value; every other term is a directive. */
  predicate IsRfcModifier(term: string) {
    var i := IndexOf(term, '=');
    0 < i < |term| && IsAlpha(term[0]) && forall k :: 0 <= k < i ==> IsNameChar(term[k])
  }

  function Directives(terms: seq<string>): seq<Mechanism> {
    if terms == [] then []
    else (if IsRfcModifier(terms[0]) then [] else [ParseMechanism(terms[0])]) + Directives(terms[1..])
  }

  /** The values of the modifiers with some name; modifiers with unknown names are ignored. */
  function Modifiers(terms: seq<string>, name: string): seq<string> {
    if terms == [] then []
    else
      (if IsRfcModifier(terms[0]) && HasPrefix(terms[0], name + "=") then [terms[0][|name| + 1..]] else [])
      + Modifiers(terms[1..], name)
  }

  function Redirects(terms: seq<string>): seq<string> { Modifiers(terms, "redirect") }

  /** The mechanisms this reference interprets, written as the RFC's grammar wants them. */
  predicate WellFormed(env: Env, m: Mechanism) {
    IsQualifier(m.qualifier)
    && (IsLeaf(m.name) || m.name == "include")
    && (m.name == "all" ==> m.value == "")
    && (m.name == "include" || m.name == "exists" ==> m.value != "")
    && (m.name == "ip4" ==> EvaluateCidr(env, m.value, "/32") != LeafError)
    && (m.name == "ip6" ==> EvaluateCidr(env, m.value, "/128") != LeafError)
  }

  predicate AllWellFormed(env: Env, ms: seq<Mechanism>) {
    forall i :: 0 <= i < |ms| ==> WellFormed(env, ms[i])
  }

  /** A syntax error anywhere, or `redirect` or `exp` twice, is a permanent error. */
  predicate SyntaxOk(env: Env, terms: seq<string>) {
    && AllWellFormed(env, Directives(terms))
    && |Redirects(terms)| <= 1 && (Redirects(terms) != [] ==> Redirects(terms)[0] != "")
    && |Modifiers(terms, "exp")| <= 1
  }

  // ---------- Evaluation ----------

  /** The table of section 4.6.2: what a matching directive with this qualifier yields. */
  function ResultOf(qualifier: char): Status
    requires IsQualifier(qualifier)
  {
    match qualifier
    case '+' => Pass
    case '-' => Fail
    case '~' => SoftFail
    case '?' => Neutral
  }

  function CheckHost(env: Env, terms: seq<string>, domain: string, depth: nat, q: nat): RefOutcome
    decreases Fuel(depth), 3, 0
  {
    if depth > MAX_DEPTH || !SyntaxOk(env, terms) then RefOutcome(PermError, q)
    else
      var ms := Directives(terms);
      var d := FirstDecisive(env, ms, domain, depth, q);
      match d.result
      case Matched => RefOutcome(ResultOf(ms[d.index].qualifier), d.queries)
      case Temp => RefOutcome(TempError, d.queries)
      case Perm => RefOutcome(PermError, d.queries)
      case NotMatched =>
        if Redirects(terms) == [] then RefOutcome(Neutral, d.queries)
        else Redirected(env, Redirects(terms)[0], depth, d.queries)
  }

  /** The first term that does not simply fail to match; past the end if there is none. */
  datatype Decision = Decision(index: nat, result: MatchResult, queries: nat)

  function FirstDecisive(env: Env, ms: seq<Mechanism>, domain: string, depth: nat, q: nat): (d: Decision)
    requires depth <= MAX_DEPTH
    ensures d.index <= |ms|
    ensures d.result == NotMatched <==> d.index == |ms|
    decreases Fuel(depth), 2, |ms|
  {
    if ms == [] then Decision(0, NotMatched, q)
    else
      var first := MatchOf(env, ms[0], domain, depth, q);
      if first.result != NotMatched then Decision(0, first.result, first.queries)
      else
        var rest := FirstDecisive(env, ms[1..], domain, depth, first.queries);
        rest.(index := rest.index + 1)
  }

  function MatchOf(env: Env, m: Mechanism, domain: string, depth: nat, q: nat): RefMatch
    requires depth <= MAX_DEPTH
    decreases Fuel(depth), 1, 0
  {
    if m.name == "include" then MatchInclude(env, m.value, depth, q)
    else if !IsLeaf(m.name) then RefMatch(Perm, q)
    else
      var (leaf, q') := EvaluateLeaf(env, m, domain, q);
      RefMatch(match leaf case Match => Matched case NoMatch => NotMatched case LeafError => Temp, q')
  }

  /** The table of section 5.2. */
  function IncludeTable(status: Status): MatchResult {
    match status
    case Pass => Matched
    case Fail => NotMatched
    case SoftFail => NotMatched
    case Neutral => NotMatched
    case TempError => Temp
    case PermError => Perm
    case None => Perm
  }

  function MatchInclude(env: Env, includeDomain: string, depth: nat, q: nat): RefMatch
    requires depth <= MAX_DEPTH
    decreases Fuel(depth), 0, 0
  {
    match FetchRecord(env, includeDomain, q)
    case RefTemp => RefMatch(Temp, q + 1)
    case RefPerm => RefMatch(Perm, q + 1)
    case RefNone => RefMatch(IncludeTable(None), q + 1)
    case RefRecord(record) =>
      var r := CheckHost(env, TermsOf(record), includeDomain, depth + 1, q + 1);
      RefMatch(IncludeTable(r.status), r.queries)
  }

  /** Section 6.1: the verdict is that of the target; a target without a record is a permanent error. */
  function Redirected(env: Env, target: string, depth: nat, q: nat): RefOutcome
    requires depth <= MAX_DEPTH
    decreases Fuel(depth), 0, 0
  {
    match FetchRecord(env, target, q)
    case RefTemp => RefOutcome(TempError, q + 1)
    case RefPerm => RefOutcome(PermError, q + 1)
    case RefNone => RefOutcome(PermError, q + 1)
    case RefRecord(record) => CheckHost(env, TermsOf(record), target, depth + 1, q + 1)
  }

  /** The whole check for a sender's domain. */
  function CheckSender(env: Env, domain: string): RefOutcome {
    match FetchRecord(env, domain, 0)
    case RefTemp => RefOutcome(TempError, 1)
    case RefPerm => RefOutcome(PermError, 1)
    case RefNone => RefOutcome(None, 1)
    case RefRecord(record) => CheckHost(env, TermsOf(record), domain, 0, 1)
  }

  // ---------- Where code and reference look up the same record ----------

  predicate SameLookup(code: Lookup, ref: RefLookup) {
    match code
    case LookupError => ref.RefTemp?
    case NoRecord => ref.RefNone?
    case Found(record) => ref == RefRecord(record)
  }

  /** The first record with the prefix `v=spf1` has exactly this version, and no later one has. */
  predicate OneRecord(answers: seq<Answer>) {
    if answers == [] then true
    else if answers[0].TXT? && HasPrefix(Join(answers[0].parts), SPF_VERSION)
    then IsVersion1(Join(answers[0].parts)) && Select(answers[1..]) == []
    else OneRecord(answers[1..])
  }

  /** The reply is no name error, and a successful one has at most one record, of the right version. */
  predicate Unambiguous(reply: Reply) {
    reply.Reply? ==> reply.rcode != NAME_ERROR && (reply.rcode == 0 ==> OneRecord(reply.answers))
  }

  lemma {:induction false} Version1HasPrefix(text: string)
    requires IsVersion1(text)
    ensures HasPrefix(text, SPF_VERSION)
  {
    if text != SPF_VERSION {
      var tag := SPF_VERSION + " ";
      assert text[..|SPF_VERSION|] == text[..|tag|][..|SPF_VERSION|];
    }
  }

  lemma {:induction false} SelectMeetsFirst(answers: seq<Answer>)
    ensures FirstSpf(answers).NoRecord? ==> Select(answers) == []
    ensures FirstSpf(answers).Found? ==> (Select(answers) == [FirstSpf(answers).record] <==> OneRecord(answers))
    ensures FirstSpf(answers).NoRecord? ==> OneRecord(answers)
    ensures !FirstSpf(answers).LookupError?
  {
    if answers != [] {
      SelectMeetsFirst(answers[1..]);
      var rest := Select(answers[1..]);
      if answers[0].TXT? && IsVersion1(Join(answers[0].parts)) {
        Version1HasPrefix(Join(answers[0].parts));
        assert |Select(answers)| == 1 + |rest|;
      } else if answers[0].TXT? && HasPrefix(Join(answers[0].parts), SPF_VERSION) {
        SelectedAreVersion1(answers[1..]);
        assert rest != [] ==> rest[0] != Join(answers[0].parts);
      }
    }
  }

  lemma {:induction false} SelectedAreVersion1(answers: seq<Answer>)
    ensures forall i :: 0 <= i < |Select(answers)| ==> IsVersion1(Select(answers)[i])
  {
    if answers != [] {
      SelectedAreVersion1(answers[1..]);
    }
  }

  /** Code and reference find the same record, or the same lack of one, exactly on unambiguous replies:
      the code takes a name error for a temporary one, and the first of several records. */
  lemma {:induction false} SameLookupIff(env: Env, domain: string, q: nat)
    ensures SameLookup(GetSPFRecord(env, domain, q), FetchRecord(env, domain, q))
            <==> Unambiguous(env.dns(q, domain, TypeTXT))
  {
    var reply := env.dns(q, domain, TypeTXT);
    if reply.Reply? {
      SelectMeetsFirst(reply.answers);
    }
  }

  // ---------- Where they read it the same way ----------

  /** Every term the code skips is a modifier, so no directive is lost. */
  predicate NothingDropped(terms: seq<string>) {
    forall i :: 0 <= i < |terms| && IsModifier(terms[i]) ==> IsRfcModifier(terms[i])
  }

  lemma {:induction false} ModifierIsSkipped(term: string)
    requires IsRfcModifier(term)
    ensures IsModifier(term)
  {
    var i := IndexOf(term, '=');
    assert term[i] in term;
    assert forall k :: 0 <= k < i ==> term[k] != ':';
    NotThatPrefix(term, "include:", i);
    NotThatPrefix(term, "ip4:", i);
    NotThatPrefix(term, "ip6:", i);
    NotThatPrefix(term, "exists:", i);
  }

  lemma {:induction false} NotThatPrefix(term: string, prefix: string, i: nat)
    requires i < |term| && term[i] == '=' && '=' !in prefix && prefix != "" && prefix[|prefix| - 1] == ':'
    requires forall k :: 0 <= k < i ==> term[k] != ':'
    ensures !HasPrefix(term, prefix)
  {
    var last := |prefix| - 1;
    if last < i {
      assert term[..|prefix|][last] != prefix[last];
    } else if |prefix| <= |term| {
      assert term[..|prefix|][i] == '=' != prefix[i];
    }
  }

  /** The code reads exactly the directives if and only if it drops none: each dropped one is missing. */
  lemma {:induction false} SameReadingIff(terms: seq<string>)
    ensures ParseTerms(terms) == Directives(terms) <==> NothingDropped(terms)
    ensures |ParseTerms(terms)| <= |Directives(terms)|
    ensures !NothingDropped(terms) ==> |ParseTerms(terms)| < |Directives(terms)|
  {
    if terms != [] {
      SameReadingIff(terms[1..]);
      if IsRfcModifier(terms[0]) {
        ModifierIsSkipped(terms[0]);
      }
      if NothingDropped(terms[1..]) && (IsModifier(terms[0]) ==> IsRfcModifier(terms[0])) {
        assert forall i :: 0 <= i < |terms| ==> i == 0 || terms[i] == terms[1..][i - 1];
      } else if !NothingDropped(terms[1..]) {
        var i :| 0 <= i < |terms[1..]| && IsModifier(terms[1..][i]) && !IsRfcModifier(terms[1..][i]);
        assert terms[1..][i] == terms[i + 1];
      }
    }
  }

  // ---------- The fragment on which code and reference agree ----------

  predicate PlainTerms(ms: seq<Mechanism>) {
    forall i :: 0 <= i < |ms| ==>
      && (ms[i].name == "include" ==> ms[i].qualifier == '+')
      && (ms[i].qualifier == '?' ==> i == |ms| - 1)
  }

  /** The record is well formed, has no redirect, loses no directive, qualifies no include other than
      by `+`, and has `?` only on its last directive; and hereditarily so. */
  ghost predicate Fragment(env: Env, record: string, depth: nat)
    decreases Fuel(depth), 1
  {
    var terms := TermsOf(record);
    depth > MAX_DEPTH
    || (SyntaxOk(env, terms) && Redirects(terms) == [] && NothingDropped(terms)
        && PlainTerms(Directives(terms)) && IncludesPlain(env, Directives(terms), depth))
  }

  /** Every reply that an include from here can get is unambiguous, and every record is plain as well. */
  ghost predicate IncludesPlain(env: Env, ms: seq<Mechanism>, depth: nat)
    requires depth <= MAX_DEPTH
    decreases Fuel(depth), 0
  {
    forall i, q: nat | 0 <= i < |ms| && ms[i].name == "include" ::
      && Unambiguous(env.dns(q, ms[i].value, TypeTXT))
      && (GetSPFRecord(env, ms[i].value, q).Found? ==>
            Fragment(env, GetSPFRecord(env, ms[i].value, q).record, depth + 1))
  }

  /** On the fragment the code gives the reference verdict after the same DNS queries. */
  lemma {:induction false} CodeMeetsReference(env: Env, record: string, domain: string, depth: nat, q: nat)
    requires Fragment(env, record, depth)
    ensures var code := EvaluateSPF(env, record, domain, depth, q);
            CheckHost(env, TermsOf(record), domain, depth, q) == RefOutcome(code.status, code.queries)
    decreases Fuel(depth), 3, 0
  {
    if depth <= MAX_DEPTH {
      SameReadingIff(TermsOf(record));
      PlainTermsMeetReference(env, Directives(TermsOf(record)), domain, depth, q);
    }
  }

  lemma {:induction false} PlainTail(env: Env, ms: seq<Mechanism>, depth: nat)
    requires depth <= MAX_DEPTH && ms != [] && IncludesPlain(env, ms, depth)
    ensures IncludesPlain(env, ms[1..], depth)
  {
    forall i, q: nat | 0 <= i < |ms[1..]| && ms[1..][i].name == "include"
      ensures Unambiguous(env.dns(q, ms[1..][i].value, TypeTXT))
      ensures GetSPFRecord(env, ms[1..][i].value, q).Found? ==>
                Fragment(env, GetSPFRecord(env, ms[1..][i].value, q).record, depth + 1)
    {
      assert ms[1..][i] == ms[i + 1];
    }
  }

  /** What the reference makes of the first term that decides. */
  function Verdict(ms: seq<Mechanism>, d: Decision): Status
    requires d.result == Matched ==> d.index < |ms| && IsQualifier(ms[d.index].qualifier)
  {
    match d.result
    case Matched => ResultOf(ms[d.index].qualifier)
    case NotMatched => Neutral
    case Temp => TempError
    case Perm => PermError
  }

  lemma {:induction false} PlainTermsMeetReference(env: Env, ms: seq<Mechanism>, domain: string, depth: nat, q: nat)
    requires depth <= MAX_DEPTH && AllWellFormed(env, ms) && PlainTerms(ms) && IncludesPlain(env, ms, depth)
    ensures var code := EvaluateTerms(env, ms, domain, depth, q);
            var d := FirstDecisive(env, ms, domain, depth, q);
            code.status == Verdict(ms, d) && code.queries == d.queries
    decreases Fuel(depth), 2, |ms|
  {
    if ms != [] {
      FirstTermCompared(env, ms, domain, depth, q);
      PlainTail(env, ms, depth);
      PlainTermsMeetReference(env, ms[1..], domain, depth, MatchOf(env, ms[0], domain, depth, q).queries);
    }
  }

  /** One term: the code's result and the reference's match. The qualifier of an include is lost. */
  lemma {:induction false} FirstTermCompared(env: Env, ms: seq<Mechanism>, domain: string, depth: nat, q: nat)
    requires depth <= MAX_DEPTH && ms != [] && WellFormed(env, ms[0]) && IncludesPlain(env, ms, depth)
    ensures var code := EvaluateMechanism(env, ms[0], domain, depth, q);
            var ref := MatchOf(env, ms[0], domain, depth, q);
            code.queries == ref.queries
            && code.status == match ref.result
                              case Matched => if ms[0].name == "include" then Pass else ResultOf(ms[0].qualifier)
                              case NotMatched => Neutral
                              case Temp => TempError
                              case Perm => PermError
    decreases Fuel(depth), 1, 0
  {
    if ms[0].name == "include" {
      IncludeMeetsReference(env, ms, depth, q);
      assert EvaluateMechanism(env, ms[0], domain, depth, q) == EvaluateInclude(env, ms[0].value, depth, q);
      assert MatchOf(env, ms[0], domain, depth, q) == MatchInclude(env, ms[0].value, depth, q);
    }
  }

  lemma {:induction false} IncludeMeetsReference(env: Env, ms: seq<Mechanism>, depth: nat, q: nat)
    requires depth <= MAX_DEPTH && IncludesPlain(env, ms, depth) && ms != [] && ms[0].name == "include"
    ensures var code := EvaluateInclude(env, ms[0].value, depth, q);
            var ref := MatchInclude(env, ms[0].value, depth, q);
            code.queries == ref.queries
            && code.status == match ref.result
                              case Matched => Pass
                              case NotMatched => Neutral
                              case Temp => TempError
                              case Perm => PermError
    decreases Fuel(depth), 0, 0
  {
    hide CheckHost, EvaluateSPF, Fragment, GetSPFRecord, FetchRecord, Unambiguous;
    var lookup := GetSPFRecord(env, ms[0].value, q);
    assert Unambiguous(env.dns(q, ms[0].value, TypeTXT));
    SameLookupIff(env, ms[0].value, q);
    if lookup.Found? {
      CodeMeetsReference(env, lookup.record, ms[0].value, depth + 1, q + 1);
      NeverNone(env, lookup.record, ms[0].value, depth + 1, q + 1);
    }
  }

  /** An evaluated record never yields None; that verdict means there was no record. */
  lemma {:induction false} NeverNone(env: Env, record: string, domain: string, depth: nat, q: nat)
    ensures EvaluateSPF(env, record, domain, depth, q).status != None
    decreases Fuel(depth), 3, 0
  {
    if depth <= MAX_DEPTH {
      NeverNoneTerms(env, ParseRecord(record), domain, depth, q);
    }
  }

  lemma {:induction false} NeverNoneTerms(env: Env, ms: seq<Mechanism>, domain: string, depth: nat, q: nat)
    requires depth <= MAX_DEPTH
    ensures EvaluateTerms(env, ms, domain, depth, q).status != None
    decreases Fuel(depth), 2, |ms|
  {
    if ms != [] {
      var first := EvaluateMechanism(env, ms[0], domain, depth, q);
      if ms[0].name == "include" && ms[0].value != "" {
        var lookup := GetSPFRecord(env, ms[0].value, q);
        assert first == EvaluateInclude(env, ms[0].value, depth, q);
        if lookup.Found? {
          NeverNone(env, lookup.record, ms[0].value, depth + 1, q + 1);
        }
      }
      NeverNoneTerms(env, ms[1..], domain, depth, first.queries);
    }
  }

  /** The whole check of a sender's domain, first lookup included. */
  lemma {:induction false} VerifyMeetsReference(env: Env, senderDomain: string)
    requires senderDomain != "" && Unambiguous(env.dns(0, senderDomain, TypeTXT))
    requires GetSPFRecord(env, senderDomain, 0).Found? ==> Fragment(env, GetSPFRecord(env, senderDomain, 0).record, 0)
    ensures var code := Verify(env, true, senderDomain);
            CheckSender(env, senderDomain) == RefOutcome(code.status, code.queries)
  {
    var lookup := GetSPFRecord(env, senderDomain, 0);
    SameLookupIff(env, senderDomain, 0);
    if lookup.Found? {
      CodeMeetsReference(env, lookup.record, senderDomain, 0, 1);
    }
  }
}
