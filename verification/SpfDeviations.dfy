/** Exactly where the SPF evaluator and the reference evaluator part, with an input for each deviation. */
module SpfDeviations {
  import opened SpfRecord
  import opened Spf
  import opened SpfReference

  // ---------- When the verdicts agree ----------

  /** For the RFC no term fails, and none matches but mechanisms qualified by `?`. */
  predicate NeutralTail(env: Env, ms: seq<Mechanism>, domain: string, depth: nat, q: nat)
    requires depth <= MAX_DEPTH
  {
    ms == []
    || (var r := MatchOf(env, ms[0], domain, depth, q);
        && (r.result == NotMatched || (r.result == Matched && ms[0].name != "include" && ms[0].qualifier == '?'))
        && NeutralTail(env, ms[1..], domain, depth, r.queries))
  }

  /** The match at term i is one the code gets wrong: of an include that is not `+`-qualified, since the
      code ignores the qualifier, or of a `?` term with a later term that decides otherwise, since the
      code goes on where the RFC stops. */
  predicate Misjudged(env: Env, ms: seq<Mechanism>, i: nat, domain: string, depth: nat, q: nat)
    requires depth <= MAX_DEPTH && i < |ms|
  {
    if ms[i].name == "include" then ms[i].qualifier != '+'
    else ms[i].qualifier == '?' && !NeutralTail(env, ms[i + 1..], domain, depth, q)
  }

  /** Following the redirect, the RFC ends at a `?` match or at a record where nothing matches. */
  predicate LeadsToNeutral(env: Env, target: string, depth: nat, q: nat)
    requires depth <= MAX_DEPTH
    decreases Fuel(depth), 0
  {
    match FetchRecord(env, target, q)
    case RefRecord(record) => depth < MAX_DEPTH && EndsNeutral(env, TermsOf(record), target, depth + 1, q + 1)
    case _ => false
  }

  predicate EndsNeutral(env: Env, terms: seq<string>, domain: string, depth: nat, q: nat)
    requires depth <= MAX_DEPTH
    decreases Fuel(depth), 1
  {
    && SyntaxOk(env, terms)
    && var d := FirstDecisive(env, Directives(terms), domain, depth, q);
       match d.result
       case Matched => Directives(terms)[d.index].qualifier == '?'
       case NotMatched => Redirects(terms) == [] || LeadsToNeutral(env, Redirects(terms)[0], depth, d.queries)
       case _ => false
  }

  /** The condition for agreement, in terms of the RFC's own matching. */
  predicate Agreeable(env: Env, terms: seq<string>, domain: string, depth: nat, q: nat)
    requires depth <= MAX_DEPTH
  {
    var ms := Directives(terms);
    var d := FirstDecisive(env, ms, domain, depth, q);
    match d.result
    case Matched => !Misjudged(env, ms, d.index, domain, depth, d.queries)
    case NotMatched => Redirects(terms) == [] || LeadsToNeutral(env, Redirects(terms)[0], depth, d.queries)
    case _ => true
  }

  lemma {:induction false} NeutralTailIff(env: Env, ms: seq<Mechanism>, domain: string, depth: nat, q: nat)
    requires depth <= MAX_DEPTH && AllWellFormed(env, ms) && IncludesPlain(env, ms, depth)
    ensures EvaluateTerms(env, ms, domain, depth, q).status == Neutral <==> NeutralTail(env, ms, domain, depth, q)
  {
    if ms != [] {
      FirstTermCompared(env, ms, domain, depth, q);
      PlainTail(env, ms, depth);
      NeutralTailIff(env, ms[1..], domain, depth, MatchOf(env, ms[0], domain, depth, q).queries);
    }
  }

  lemma {:induction false} TermsAgreeIff(env: Env, ms: seq<Mechanism>, domain: string, depth: nat, q: nat)
    requires depth <= MAX_DEPTH && AllWellFormed(env, ms) && IncludesPlain(env, ms, depth)
    ensures var d := FirstDecisive(env, ms, domain, depth, q);
            EvaluateTerms(env, ms, domain, depth, q).status == Verdict(ms, d)
            <==> !(d.result == Matched && Misjudged(env, ms, d.index, domain, depth, d.queries))
  {
    if ms != [] {
      var r := MatchOf(env, ms[0], domain, depth, q);
      FirstTermCompared(env, ms, domain, depth, q);
      PlainTail(env, ms, depth);
      if r.result == NotMatched {
        TermsAgreeIff(env, ms[1..], domain, depth, r.queries);
        LaterTerm(env, ms, domain, depth, q);
      } else {
        NeutralTailIff(env, ms[1..], domain, depth, r.queries);
      }
    }
  }

  lemma {:induction false} LaterTerm(env: Env, ms: seq<Mechanism>, domain: string, depth: nat, q: nat)
    requires depth <= MAX_DEPTH && ms != [] && AllWellFormed(env, ms)
    requires MatchOf(env, ms[0], domain, depth, q).result == NotMatched
    ensures var d := FirstDecisive(env, ms, domain, depth, q);
            var later := FirstDecisive(env, ms[1..], domain, depth, MatchOf(env, ms[0], domain, depth, q).queries);
            && d == later.(index := later.index + 1) && Verdict(ms, d) == Verdict(ms[1..], later)
            && (later.result == Matched ==>
                  Misjudged(env, ms, d.index, domain, depth, d.queries)
                  == Misjudged(env, ms[1..], later.index, domain, depth, d.queries))
  {
    var later := FirstDecisive(env, ms[1..], domain, depth, MatchOf(env, ms[0], domain, depth, q).queries);
    if later.index < |ms[1..]| {
      assert ms[1..][later.index + 1..] == ms[later.index + 2..];
    }
  }

  lemma {:induction false} LeadsToNeutralIff(env: Env, target: string, depth: nat, q: nat)
    requires depth <= MAX_DEPTH
    ensures Redirected(env, target, depth, q).status == Neutral <==> LeadsToNeutral(env, target, depth, q)
    decreases Fuel(depth), 0
  {
    hide CheckHost, EndsNeutral, FetchRecord;
    var lookup := FetchRecord(env, target, q);
    if lookup.RefRecord? && depth < MAX_DEPTH {
      EndsNeutralIff(env, TermsOf(lookup.record), target, depth + 1, q + 1);
    } else if lookup.RefRecord? {
      TooDeep(env, TermsOf(lookup.record), target, depth + 1, q + 1);
    }
  }

  lemma {:induction false} TooDeep(env: Env, terms: seq<string>, domain: string, depth: nat, q: nat)
    requires depth > MAX_DEPTH
    ensures CheckHost(env, terms, domain, depth, q).status == PermError
  {
  }

  lemma {:induction false} EndsNeutralIff(env: Env, terms: seq<string>, domain: string, depth: nat, q: nat)
    requires depth <= MAX_DEPTH
    ensures CheckHost(env, terms, domain, depth, q).status == Neutral <==> EndsNeutral(env, terms, domain, depth, q)
    decreases Fuel(depth), 1
  {
    hide LeadsToNeutral, Redirected, FirstDecisive, Directives, Modifiers, IsLeaf;
    var d := FirstDecisive(env, Directives(terms), domain, depth, q);
    if SyntaxOk(env, terms) && d.result == NotMatched && Redirects(terms) != [] {
      LeadsToNeutralIff(env, Redirects(terms)[0], depth, d.queries);
    }
  }

  /** Any well-formed record of which the code drops no directive, whatever its qualifiers and modifiers,
      over plain included ones: the verdicts agree if and only if the first deciding directive is not a
      misjudged match and, when none decides, a redirect leads to Neutral. */
  lemma {:induction false} MeetsReferenceIff(env: Env, record: string, domain: string, depth: nat, q: nat)
    requires depth <= MAX_DEPTH && SyntaxOk(env, TermsOf(record)) && NothingDropped(TermsOf(record))
    requires IncludesPlain(env, Directives(TermsOf(record)), depth)
    ensures EvaluateSPF(env, record, domain, depth, q).status == CheckHost(env, TermsOf(record), domain, depth, q).status
            <==> Agreeable(env, TermsOf(record), domain, depth, q)
  {
    var terms := TermsOf(record);
    var ms := Directives(terms);
    var d := FirstDecisive(env, ms, domain, depth, q);
    SameReadingIff(terms);
    TermsAgreeIff(env, ms, domain, depth, q);
    if d.result == NotMatched && Redirects(terms) != [] {
      LeadsToNeutralIff(env, Redirects(terms)[0], depth, d.queries);
    }
  }

  // ---------- One input for each deviation ----------

  const ALL_PASS := Mechanism('+', "all", "")
  const ALL_FAIL := Mechanism('-', "all", "")
  const ALL_NEUTRAL := Mechanism('?', "all", "")

  lemma {:induction false} RenderedIsDirective(m: Mechanism)
    requires Printable(m)
    ensures !IsRfcModifier(RenderMechanism(m))
  {
    assert RenderMechanism(m)[0] == m.qualifier;
  }

  lemma {:induction false} RenderedDirectives(ms: seq<Mechanism>, name: string)
    requires forall i :: 0 <= i < |ms| ==> Printable(ms[i])
    ensures Directives(Rendered(ms)) == ms && Modifiers(Rendered(ms), name) == []
  {
    if ms != [] {
      hide Printable, RenderMechanism, ParseMechanism, IsRfcModifier, HasPrefix;
      MechanismRoundTrip(ms[0]);
      RenderedIsDirective(ms[0]);
      RenderedDirectives(ms[1..], name);
      assert Rendered(ms)[1..] == Rendered(ms[1..]);
    }
  }

  /** What code and reference read in a record of explicitly qualified directives. */
  lemma {:induction false} ReadRendered(ms: seq<Mechanism>)
    requires forall i :: 0 <= i < |ms| ==> Printable(ms[i])
    ensures var terms := TermsOf(RenderRecord(ms));
            Directives(terms) == ms && Redirects(terms) == [] && Modifiers(terms, "exp") == []
    ensures ParseRecord(RenderRecord(ms)) == Kept(ms)
  {
    hide Directives, Modifiers, Rendered, TermsOf, RenderRecord, ParseRecord, Kept, Printable;
    RecordRoundTrip(ms);
    TermsOfRendered(ms);
    RenderedDirectives(ms, "redirect");
    RenderedDirectives(ms, "exp");
  }

  /** The reference verdict on such a record. */
  lemma {:induction false} JudgeRendered(env: Env, ms: seq<Mechanism>, domain: string, depth: nat, q: nat)
    requires depth <= MAX_DEPTH && AllWellFormed(env, ms)
    requires forall i :: 0 <= i < |ms| ==> Printable(ms[i])
    ensures CheckHost(env, TermsOf(RenderRecord(ms)), domain, depth, q).status
            == Verdict(ms, FirstDecisive(env, ms, domain, depth, q))
  {
    hide Directives, Modifiers, TermsOf, RenderRecord, Printable, FirstDecisive, AllWellFormed;
    ReadRendered(ms);
  }

  /** The code's verdict on such a record. */
  lemma {:induction false} EvaluateRendered(env: Env, ms: seq<Mechanism>, domain: string, depth: nat, q: nat)
    requires depth <= MAX_DEPTH && forall i :: 0 <= i < |ms| ==> Printable(ms[i])
    ensures EvaluateSPF(env, RenderRecord(ms), domain, depth, q) == EvaluateTerms(env, Kept(ms), domain, depth, q)
    ensures (forall i :: 0 <= i < |ms| ==> '=' !in RenderMechanism(ms[i])) ==> Kept(ms) == ms
  {
    RecordRoundTrip(ms);
    KeptAll(ms);
  }

  /** `?all -all` is Neutral for the RFC and Fail for the code. */
  lemma {:induction false} NeutralAllThenFail(env: Env, domain: string, q: nat)
    ensures var record := RenderRecord([ALL_NEUTRAL, ALL_FAIL]);
            && CheckHost(env, TermsOf(record), domain, 0, q).status == Neutral
            && EvaluateSPF(env, record, domain, 0, q).status == Fail
  {
    var ms := [ALL_NEUTRAL, ALL_FAIL];
    ShapeOfAll(env, ALL_NEUTRAL);
    ShapeOfAll(env, ALL_FAIL);
    hide CheckHost, EvaluateSPF, TermsOf, RenderRecord, Printable, WellFormed, RenderMechanism, Kept;
    hide FirstDecisive, EvaluateTerms;
    JudgeRendered(env, ms, domain, 0, q);
    EvaluateRendered(env, ms, domain, 0, q);
    GoesOn(env, domain, 0, q);
  }

  lemma {:induction false} GoesOn(env: Env, domain: string, depth: nat, q: nat)
    requires depth <= MAX_DEPTH
    ensures var ms := [ALL_NEUTRAL, ALL_FAIL];
            && Verdict(ms, FirstDecisive(env, ms, domain, depth, q)) == Neutral
            && EvaluateTerms(env, ms, domain, depth, q).status == Fail
  {
    var ms := [ALL_NEUTRAL, ALL_FAIL];
    assert ms[1..] == [ALL_FAIL];
    SingleTerm(env, ALL_FAIL, domain, depth, q);
  }

  /** `+all` in a record of its own passes everywhere. */
  lemma {:induction false} AllPassPasses(env: Env, domain: string, depth: nat, q: nat)
    requires depth <= MAX_DEPTH
    ensures CheckHost(env, TermsOf(RenderRecord([ALL_PASS])), domain, depth, q).status == Pass
    ensures EvaluateSPF(env, RenderRecord([ALL_PASS]), domain, depth, q).status == Pass
  {
    ShapeOfAll(env, ALL_PASS);
    hide CheckHost, EvaluateSPF, TermsOf, RenderRecord, Printable, WellFormed, RenderMechanism, Kept;
    JudgeRendered(env, [ALL_PASS], domain, depth, q);
    EvaluateRendered(env, [ALL_PASS], domain, depth, q);
    SingleTerm(env, ALL_PASS, domain, depth, q);
  }

  lemma {:induction false} ShapeOfAll(env: Env, m: Mechanism)
    requires m.name == "all" && m.value == "" && IsQualifier(m.qualifier)
    ensures Printable(m) && WellFormed(env, m) && '=' !in RenderMechanism(m)
  {
    assert RenderMechanism(m) == [m.qualifier] + "all";
  }

  lemma {:induction false} AllPassPublished(env: Env, x: string, q: nat)
    requires env.dns(q, x, TypeTXT) == Reply(0, [TXT([RenderRecord([ALL_PASS])])])
    ensures GetSPFRecord(env, x, q) == Found(RenderRecord([ALL_PASS]))
    ensures FetchRecord(env, x, q) == RefRecord(RenderRecord([ALL_PASS]))
  {
    var text := RenderRecord([ALL_PASS]);
    assert [ALL_PASS][1..] == [] && RenderTerms([]) == "";
    assert text == SPF_VERSION + " " + RenderMechanism(ALL_PASS);
    assert text[..7] == SPF_VERSION + " ";
    Version1HasPrefix(text);
    assert Join([text]) == text + Join([]) == text;
    assert [TXT([text])][1..] == [];
    assert Select([TXT([text])]) == [text] + Select([]);
  }

  /** `-include:x`, where x publishes `+all`, is Fail for the RFC and Pass for the code. */
  lemma {:induction false} NegatedIncludePasses(env: Env, x: string, domain: string, q: nat)
    requires x != "" && NoSpace(x) && '=' !in x
    requires env.dns(q, x, TypeTXT) == Reply(0, [TXT([RenderRecord([ALL_PASS])])])
    ensures var record := RenderRecord([Mechanism('-', "include", x)]);
            && CheckHost(env, TermsOf(record), domain, 0, q).status == Fail
            && EvaluateSPF(env, record, domain, 0, q).status == Pass
  {
    var m := Mechanism('-', "include", x);
    ShapeOfInclude(env, m);
    hide CheckHost, EvaluateSPF, TermsOf, RenderRecord, EvaluateMechanism, MatchOf, FirstDecisive, EvaluateTerms;
    hide Printable, WellFormed, RenderMechanism, Kept, NoSpace;
    JudgeRendered(env, [m], domain, 0, q);
    EvaluateRendered(env, [m], domain, 0, q);
    IncludeAllPass(env, m, domain, 0, q);
    SingleTerm(env, m, domain, 0, q);
  }

  lemma {:induction false} ShapeOfInclude(env: Env, m: Mechanism)
    requires m.name == "include" && m.value != "" && IsQualifier(m.qualifier) && NoSpace(m.value) && '=' !in m.value
    ensures Printable(m) && WellFormed(env, m) && '=' !in RenderMechanism(m)
  {
    assert RenderMechanism(m) == [m.qualifier] + "include" + ":" + m.value;
  }

  lemma {:induction false} IncludeAllPass(env: Env, m: Mechanism, domain: string, depth: nat, q: nat)
    requires depth < MAX_DEPTH && m.name == "include" && m.value != ""
    requires env.dns(q, m.value, TypeTXT) == Reply(0, [TXT([RenderRecord([ALL_PASS])])])
    ensures EvaluateMechanism(env, m, domain, depth, q).status == Pass
    ensures MatchOf(env, m, domain, depth, q).result == Matched
  {
    hide CheckHost, EvaluateSPF, TermsOf, RenderRecord, GetSPFRecord, FetchRecord;
    AllPassPublished(env, m.value, q);
    AllPassPasses(env, m.value, depth + 1, q + 1);
    assert EvaluateMechanism(env, m, domain, depth, q) == EvaluateInclude(env, m.value, depth, q);
    assert MatchOf(env, m, domain, depth, q) == MatchInclude(env, m.value, depth, q);
  }

  /** A record of one directive. */
  lemma {:induction false} SingleTerm(env: Env, m: Mechanism, domain: string, depth: nat, q: nat)
    requires depth <= MAX_DEPTH
    ensures EvaluateTerms(env, [m], domain, depth, q).status == EvaluateMechanism(env, m, domain, depth, q).status
    ensures var d := FirstDecisive(env, [m], domain, depth, q); var r := MatchOf(env, m, domain, depth, q).result;
            d.result == r && (r != NotMatched ==> d.index == 0)
  {
    hide EvaluateMechanism, MatchOf;
    var ms := [m];
    assert ms[1..] == [];
  }

  lemma {:induction false} PlainRendered(env: Env, ms: seq<Mechanism>, depth: nat)
    requires AllWellFormed(env, ms) && PlainTerms(ms) && (depth <= MAX_DEPTH ==> IncludesPlain(env, ms, depth))
    requires forall i :: 0 <= i < |ms| ==> Printable(ms[i]) && '=' !in RenderMechanism(ms[i])
    ensures Fragment(env, RenderRecord(ms), depth)
  {
    hide Directives, Modifiers, TermsOf, RenderRecord, Printable, RenderMechanism, ParseRecord;
    hide AllWellFormed, PlainTerms, IncludesPlain;
    ReadRendered(ms);
    KeptAll(ms);
    SameReadingIff(TermsOf(RenderRecord(ms)));
    ParsedAsRead(ms);
  }

  lemma {:induction false} ParsedAsRead(ms: seq<Mechanism>)
    ensures ParseRecord(RenderRecord(ms)) == ParseTerms(TermsOf(RenderRecord(ms)))
  {
  }

  /** Records inside the fragment: any well-formed leaves, `?` only on the last. */
  lemma {:induction false} LeavesAreFragment(env: Env, ms: seq<Mechanism>, depth: nat)
    requires AllWellFormed(env, ms)
    requires forall i :: 0 <= i < |ms| ==>
               Printable(ms[i]) && IsLeaf(ms[i].name) && '=' !in RenderMechanism(ms[i])
               && (ms[i].qualifier == '?' ==> i == |ms| - 1)
    ensures Fragment(env, RenderRecord(ms), depth)
  {
    hide Printable, RenderMechanism, WellFormed, Fragment, RenderRecord;
    PlainRendered(env, ms, depth);
  }

  /** And records that include such a record, if the DNS always answers with it. */
  lemma {:induction false} IncludeIsFragment(env: Env, x: string, depth: nat)
    requires x != "" && NoSpace(x) && '=' !in x && depth <= MAX_DEPTH
    requires forall q: nat :: env.dns(q, x, TypeTXT) == Reply(0, [TXT([RenderRecord([ALL_PASS])])])
    ensures Fragment(env, RenderRecord([Mechanism('+', "include", x), ALL_FAIL]), depth)
  {
    var m := Mechanism('+', "include", x);
    ShapeOfInclude(env, m);
    ShapeOfAll(env, ALL_FAIL);
    hide Printable, RenderMechanism, WellFormed, Fragment, RenderRecord, IncludesPlain;
    AnsweredPlain(env, m, depth);
    PlainRendered(env, [m, ALL_FAIL], depth);
  }

  lemma {:induction false} AnsweredPlain(env: Env, m: Mechanism, depth: nat)
    requires m.name == "include" && depth <= MAX_DEPTH
    requires forall q: nat :: env.dns(q, m.value, TypeTXT) == Reply(0, [TXT([RenderRecord([ALL_PASS])])])
    ensures IncludesPlain(env, [m, ALL_FAIL], depth)
  {
    var record := RenderRecord([ALL_PASS]);
    AllPassInFragment(env, depth + 1);
    forall q: nat
      ensures Unambiguous(env.dns(q, m.value, TypeTXT)) && GetSPFRecord(env, m.value, q) == Found(record)
    {
      hide RenderRecord, GetSPFRecord, Unambiguous, FetchRecord;
      AllPassPublished(env, m.value, q);
      SameLookupIff(env, m.value, q);
    }
    hide RenderRecord, GetSPFRecord, Unambiguous, Fragment;
    OneTarget(env, [m, ALL_FAIL], m.value, record, depth);
  }

  lemma {:induction false} AllPassInFragment(env: Env, depth: nat)
    ensures Fragment(env, RenderRecord([ALL_PASS]), depth)
  {
    ShapeOfAll(env, ALL_PASS);
    hide Printable, RenderMechanism, WellFormed, Fragment, RenderRecord;
    LeavesAreFragment(env, [ALL_PASS], depth);
  }

  lemma {:induction false} OneTarget(env: Env, ms: seq<Mechanism>, x: string, record: string, depth: nat)
    requires depth <= MAX_DEPTH && Fragment(env, record, depth + 1)
    requires forall i :: 0 <= i < |ms| && ms[i].name == "include" ==> ms[i].value == x
    requires forall q: nat :: Unambiguous(env.dns(q, x, TypeTXT)) && GetSPFRecord(env, x, q) == Found(record)
    ensures IncludesPlain(env, ms, depth)
  {
    hide GetSPFRecord, Unambiguous, Fragment;
  }

  /** A qualified directive with '=' in its value is dropped: the RFC fails the message, the code is
      neutral. */
  lemma {:induction false} DroppedDirective(env: Env, value: string, domain: string, q: nat)
    requires '=' in value && NoSpace(value) && EvaluateExists(env, env.expand(value, domain), q) == Match
    ensures var record := RenderRecord([Mechanism('-', "exists", value)]);
            && CheckHost(env, TermsOf(record), domain, 0, q).status == Fail
            && EvaluateSPF(env, record, domain, 0, q).status == Neutral
  {
    var m := Mechanism('-', "exists", value);
    ShapeOfExists(env, m);
    assert MatchOf(env, m, domain, 0, q).result == Matched;
    hide CheckHost, EvaluateSPF, TermsOf, RenderRecord, Printable, WellFormed, RenderMechanism, Kept, FirstDecisive;
    hide EvaluateMechanism, MatchOf, NoSpace;
    JudgeRendered(env, [m], domain, 0, q);
    SingleTerm(env, m, domain, 0, q);
    EvaluateRendered(env, [m], domain, 0, q);
  }

  lemma {:induction false} ShapeOfExists(env: Env, m: Mechanism)
    requires m.name == "exists" && IsQualifier(m.qualifier) && NoSpace(m.value) && '=' in m.value
    ensures Printable(m) && WellFormed(env, m) && Kept([m]) == []
  {
    assert RenderMechanism(m) == [m.qualifier] + "exists" + ":" + m.value;
    var ms := [m];
    assert ms[1..] == [];
  }

  /** An include of a name that does not exist: permanent for the RFC, temporary for the code. */
  lemma {:induction false} IncludeOfNothing(env: Env, x: string, depth: nat, q: nat)
    requires depth <= MAX_DEPTH && env.dns(q, x, TypeTXT).Reply? && env.dns(q, x, TypeTXT).rcode == NAME_ERROR
    ensures MatchInclude(env, x, depth, q).result == Perm
    ensures EvaluateInclude(env, x, depth, q).status == TempError
  {
  }

  /** A record `redirect=x`, where x publishes `+all`, is Pass for the RFC and Neutral for the code. */
  lemma {:induction false} RedirectIsIgnored(env: Env, x: string, domain: string, q: nat)
    requires x != "" && env.dns(q, x, TypeTXT) == Reply(0, [TXT([RenderRecord([ALL_PASS])])])
    ensures CheckHost(env, ["redirect=" + x], domain, 0, q).status == Pass
    ensures EvaluateTerms(env, ParseTerms(["redirect=" + x]), domain, 0, q).status == Neutral
  {
    hide RenderRecord, GetSPFRecord, FetchRecord, Directives, Modifiers, ParseTerms, TermsOf, CheckHost;
    RedirectRead(x);
    AllPassPublished(env, x, q);
    AllPassPasses(env, x, 1, q + 1);
    OnlyRedirect(env, ["redirect=" + x], x, domain, 0, q);
  }

  lemma {:induction false} OnlyRedirect(env: Env, terms: seq<string>, x: string, domain: string, depth: nat, q: nat)
    requires depth <= MAX_DEPTH && x != ""
    requires Directives(terms) == [] && Redirects(terms) == [x] && Modifiers(terms, "exp") == []
    ensures CheckHost(env, terms, domain, depth, q) == Redirected(env, x, depth, q)
  {
    hide Directives, Modifiers, Redirected;
  }

  lemma {:induction false} RedirectRead(x: string)
    ensures var terms := ["redirect=" + x];
            Directives(terms) == [] && Redirects(terms) == [x] && Modifiers(terms, "exp") == [] && ParseTerms(terms) == []
  {
    var term := "redirect=" + x;
    assert term == "redirect" + ['='] + x == "redirect" + "=" + x;
    IndexOfFirst("redirect", '=', x);
    assert IsRfcModifier(term);
    ModifierIsSkipped(term);
    SingleModifier(term, "redirect", x);
    OtherModifier(term, "exp");
  }

  lemma {:induction false} SingleModifier(term: string, name: string, x: string)
    requires IsRfcModifier(term) && term == name + "=" + x
    ensures Directives([term]) == [] && Modifiers([term], name) == [x]
  {
    hide IsRfcModifier;
    var terms := [term];
    assert terms[1..] == [];
    assert term[..|name + "="|] == name + "=" && term[|name| + 1..] == x;
  }

  lemma {:induction false} OtherModifier(term: string, name: string)
    requires name != "" && term != "" && term[0] != name[0]
    ensures Modifiers([term], name) == []
  {
    hide IsRfcModifier;
    var terms := [term];
    assert terms[1..] == [];
    if |name| + 1 <= |term| {
      assert term[..|name + "="|][0] != (name + "=")[0];
    }
  }

  /** The names of the RFC's mechanisms, whatever the case, a CIDR length cut off. */
  predicate IsRfcName(name: string) {
    Lower(name[..IndexOf(name, '/')]) in {"all", "include", "a", "mx", "ptr", "ip4", "ip6", "exists"}
  }

  function Lower(s: string): string {
    if s == "" then "" else [if 'A' <= s[0] <= 'Z' then s[0] - 'A' + 'a' else s[0]] + Lower(s[1..])
  }

  /** A directive that names no mechanism of the RFC, anywhere in a record, is a permanent error for the
      RFC and is passed over by the code. */
  lemma {:induction false} UnknownMechanismDeviation(
    env: Env, before: seq<string>, term: string, after: seq<string>, domain: string, depth: nat, q: nat)
    requires depth <= MAX_DEPTH && !IsModifier(term) && !IsRfcName(ParseMechanism(term).name)
    ensures CheckHost(env, before + [term] + after, domain, depth, q).status == PermError
    ensures EvaluateTerms(env, ParseTerms(before + [term] + after), domain, depth, q)
            == EvaluateTerms(env, ParseTerms(before + after), domain, depth, q)
  {
    var m := ParseMechanism(term);
    SupportedAreRfc(m.name);
    if IsRfcModifier(term) {
      ModifierIsSkipped(term);
    }
    DirectivesConcat(before + [term], after);
    DirectivesConcat(before, [term]);
    ParseConcat(before + [term], after);
    ParseConcat(before, [term]);
    ParseConcat(before, after);
    assert Directives([term]) == [m] && ParseTerms([term]) == [m];
    assert !WellFormed(env, Directives(before + [term] + after)[|Directives(before)|]);
    PassedOver(env, ParseTerms(before), m, ParseTerms(after), domain, depth, q);
  }

  /** Names that are none of the RFC's, and names that are. */
  lemma {:induction false} SomeNames()
    ensures !IsRfcName("foo") && !IsRfcName("al") && IsRfcName("ptr")
  {
    assert '/' !in "foo" && '/' !in "al" && '/' !in "ptr";
    IndexOfAbsent("foo", '/');
    IndexOfAbsent("al", '/');
    IndexOfAbsent("ptr", '/');
    assert "foo"[..3] == "foo" && "al"[..2] == "al" && "ptr"[..3] == "ptr";
    LowerIsFixed("foo");
    LowerIsFixed("al");
    LowerIsFixed("ptr");
    assert "foo"[0] == 'f' && "al"[1] == 'l';
  }

  lemma {:induction false} SupportedAreRfc(name: string)
    ensures IsLeaf(name) || name == "include" ==> IsRfcName(name)
  {
    if IsLeaf(name) || name == "include" {
      assert '/' !in name;
      IndexOfAbsent(name, '/');
      assert name[..|name|] == name;
      LowerIsFixed(name);
    }
  }

  lemma {:induction false} LowerIsFixed(s: string)
    requires forall i :: 0 <= i < |s| ==> !('A' <= s[i] <= 'Z')
    ensures Lower(s) == s
  {
    if s != "" {
      LowerIsFixed(s[1..]);
    }
  }

  lemma {:induction false} DirectivesConcat(a: seq<string>, b: seq<string>)
    ensures Directives(a + b) == Directives(a) + Directives(b)
  {
    hide IsRfcModifier, ParseMechanism;
    if a == [] {
      assert a + b == b;
    } else {
      assert (a + b)[1..] == a[1..] + b;
      DirectivesConcat(a[1..], b);
    }
  }

  lemma {:induction false} ParseConcat(a: seq<string>, b: seq<string>)
    ensures ParseTerms(a + b) == ParseTerms(a) + ParseTerms(b)
  {
    hide IsModifier, ParseMechanism;
    if a == [] {
      assert a + b == b;
    } else {
      assert (a + b)[1..] == a[1..] + b;
      ParseConcat(a[1..], b);
    }
  }

  lemma {:induction false} PassedOver(
    env: Env, before: seq<Mechanism>, m: Mechanism, after: seq<Mechanism>, domain: string, depth: nat, q: nat)
    requires depth <= MAX_DEPTH && !IsLeaf(m.name) && m.name != "include"
    ensures EvaluateTerms(env, before + [m] + after, domain, depth, q)
            == EvaluateTerms(env, before + after, domain, depth, q)
    decreases |before|
  {
    var all := before + [m] + after;
    if before == [] {
      assert all[0] == m && all[1..] == after && before + after == after;
    } else {
      assert all[1..] == before[1..] + [m] + after && (before + after)[1..] == before[1..] + after;
      var first := EvaluateMechanism(env, before[0], domain, depth, q);
      PassedOver(env, before[1..], m, after, domain, depth, first.queries);
    }
  }
}
