/** What the SPF evaluator says about concrete record texts and DNS answers, in literal terms. */
module SpfVerdicts {
  import opened SpfRecord
  import opened Spf
  import opened SpfDeviations

  // ---------- Record texts ----------

  lemma {:induction false} JoinConcat(a: seq<string>, b: seq<string>)
    ensures Join(a + b) == Join(a) + Join(b)
    ensures forall text :: Join([text]) == text
  {
    forall text ensures Join([text]) == text {
      assert [text][1..] == [] && Join([]) == "";
      assert Join([text]) == text + "";
    }
    if a == [] {
      assert a + b == b && Join(a) + Join(b) == Join(b);
    } else {
      assert (a + b)[1..] == a[1..] + b;
      JoinConcat(a[1..], b);
      assert a[0] + (Join(a[1..]) + Join(b)) == a[0] + Join(a[1..]) + Join(b);
    }
  }

  /** A record of one word after the version tag. */
  lemma {:induction false} OneWord(word: string)
    requires word != "" && NoSpace(word)
    ensures TermsOf("v=spf1 " + word) == [word] && HasPrefix("v=spf1 " + word, "v=spf1")
  {
    var tag := "v=spf1";
    assert "v=spf1 " + word == tag + (" " + word);
    FieldsOfWord(tag, " " + word);
    FieldsAfterSpace(word);
    assert word + "" == word;
    FieldsOfWord(word, "");
    assert Fields("") == [];
  }

  lemma {:induction false} TwoWords(first: string, second: string)
    requires first != "" && second != "" && NoSpace(first) && NoSpace(second)
    ensures TermsOf("v=spf1 " + first + " " + second) == [first, second]
  {
    hide Fields, NoSpace;
    var tag := "v=spf1";
    TagHasNoSpace();
    EmptyFields();
    assert "v=spf1 " + first + " " + second == tag + (" " + (first + (" " + second)));
    FieldsOfWord(tag, " " + (first + (" " + second)));
    FieldsAfterSpace(first + (" " + second));
    FieldsOfWord(first, " " + second);
    FieldsAfterSpace(second);
    assert second + "" == second;
    FieldsOfWord(second, "");
  }

  lemma {:induction false} TagHasNoSpace()
    ensures NoSpace("v=spf1")
  {
  }

  lemma {:induction false} EmptyFields()
    ensures Fields("") == []
  {
  }

  /** A word without '=' is read as qualifier, name and value; the qualifier is `+` if there is none. */
  lemma {:induction false} ReadWord(qualifier: string, name: string, value: string)
    requires qualifier == "" || (|qualifier| == 1 && qualifier[0] in {'+', '-', '~', '?'})
    requires name != "" && name[0] !in {'+', '-', '~', '?'} && ':' !in name
    ensures ParseMechanism(qualifier + name + ":" + value)
            == Mechanism(if qualifier == "" then '+' else qualifier[0], name, value)
    ensures ParseMechanism(qualifier + name) == Mechanism(if qualifier == "" then '+' else qualifier[0], name, "")
  {
    hide ParseMechanism;
    QualifierCut(qualifier, name + ":" + value);
    QualifierCut(qualifier, name);
    assert qualifier + (name + ":" + value) == qualifier + name + ":" + value;
    assert name + ":" + value == name + [':'] + value;
    SplitAtColon(name, value);
    IndexOfAbsent(name, ':');
    assert name[..|name|] == name;
  }

  lemma {:induction false} QualifierCut(qualifier: string, body: string)
    requires qualifier == "" || (|qualifier| == 1 && qualifier[0] in {'+', '-', '~', '?'})
    requires body != "" && body[0] !in {'+', '-', '~', '?'}
    ensures var colon := IndexOf(body, ':');
            ParseMechanism(qualifier + body)
            == Mechanism(if qualifier == "" then '+' else qualifier[0], body[..colon],
                         if colon < |body| then body[colon + 1..] else "")
  {
    hide IndexOf;
    if qualifier == "" {
      assert qualifier + body == body;
    } else {
      assert (qualifier + body)[1..] == body;
    }
  }

  /** Terms that begin with one of four names and a colon are kept, with or without '='. */
  lemma {:induction false} KeptTerm(name: string, value: string)
    requires name in {"include", "ip4", "ip6", "exists"}
    ensures ParseTerms([name + ":" + value]) == [Mechanism('+', name, value)]
  {
    var term := name + ":" + value;
    var terms := [term];
    ReadWord("", name, value);
    assert "" + name + ":" + value == term;
    Exempt(name, value);
    assert terms[1..] == [];
  }

  lemma {:induction false} Exempt(name: string, value: string)
    requires name in {"include", "ip4", "ip6", "exists"}
    ensures !IsModifier(name + ":" + value)
  {
    var term := name + ":" + value;
    assert term[..|name + ":"|] == name + ":";
    assert HasPrefix(term, name + ":");
    if name == "include" {
      assert name + ":" == "include:";
    } else if name == "ip4" {
      assert name + ":" == "ip4:";
    } else if name == "ip6" {
      assert name + ":" == "ip6:";
    } else {
      assert name + ":" == "exists:";
    }
  }

  /** Any other unqualified term is dropped if it has '=' in it. */
  lemma {:induction false} DroppedTerm(name: string, value: string)
    requires name in {"a", "mx", "all", "redirect"} && '=' in value
    ensures ParseTerms([name + ":" + value]) == [] && ParseTerms([name + value]) == []
  {
    DroppedWord(name + ":" + value);
    DroppedWord(name + value);
  }

  lemma {:induction false} DroppedWord(term: string)
    requires '=' in term && term[0] in {'a', 'm', 'r'}
    ensures ParseTerms([term]) == []
  {
    var terms := [term];
    NotPrefix(term, "include:");
    NotPrefix(term, "ip4:");
    NotPrefix(term, "ip6:");
    NotPrefix(term, "exists:");
    assert terms[1..] == [];
  }

  lemma {:induction false} NotPrefix(s: string, prefix: string)
    requires prefix != "" && s != "" && s[0] != prefix[0]
    ensures !HasPrefix(s, prefix)
  {
    if |prefix| <= |s| {
      assert s[..|prefix|][0] != prefix[0];
    }
  }

  // ---------- `all` with each qualifier ----------

  /** Beyond depth 10 the guard answers. */
  lemma {:induction false} VerdictTooDeep(env: Env, record: string, domain: string, depth: nat, q: nat)
    ensures depth > 10 ==> EvaluateSPF(env, record, domain, depth, q) == Outcome(PermError, q, true)
  {
  }

  /** The verdict on a record of one `all`, by its qualifier; none means `+`. */
  lemma {:induction false} VerdictOfAll(env: Env, qualifier: string, domain: string, depth: nat, q: nat)
    requires depth <= 10 && qualifier in {"", "+", "-", "~", "?"}
    ensures EvaluateSPF(env, "v=spf1 " + (qualifier + "all"), domain, depth, q).status
            == if qualifier == "-" then Fail else if qualifier == "~" then SoftFail
               else if qualifier == "?" then Neutral else Pass
  {
    var word := qualifier + "all";
    assert '=' !in word && NoSpace(word);
    hide ParseMechanism, TermsOf, EvaluateTerms;
    OneWord(word);
    ReadWord(qualifier, "all", "");
    OneTerm(word);
    SingleTerm(env, ParseMechanism(word), domain, depth, q);
  }

  lemma {:induction false} OneTerm(word: string)
    requires '=' !in word
    ensures ParseTerms([word]) == [ParseMechanism(word)]
  {
    var terms := [word];
    assert terms[1..] == [];
  }

  /** From the DNS answer to the verdict: the text parts are joined, and the record is found by its tag. */
  lemma {:induction false} VerifyOfAll(env: Env, domain: string, parts: seq<string>, qualifier: string)
    requires domain != "" && qualifier in {"+", "-", "~", "?"}
    requires Join(parts) == "v=spf1 " + (qualifier + "all") && env.dns(0, domain, TypeTXT) == Reply(0, [TXT(parts)])
    ensures Verify(env, true, domain).status
            == if qualifier == "-" then Fail else if qualifier == "~" then SoftFail
               else if qualifier == "?" then Neutral else Pass
  {
    OneWord(qualifier + "all");
    VerdictOfAll(env, qualifier, domain, 0, 1);
  }

  /** Without a sender address, a domain or a record there is nothing to evaluate. */
  lemma {:induction false} VerifyWithoutRecord(env: Env, domain: string)
    ensures Verify(env, false, domain) == Outcome(None, 0, false)
    ensures Verify(env, true, "") == Outcome(PermError, 0, false)
    ensures domain != "" && env.dns(0, domain, TypeTXT).ExchangeError?
            ==> Verify(env, true, domain) == Outcome(TempError, 1, false)
    ensures domain != "" && env.dns(0, domain, TypeTXT) == Reply(0, [])
            ==> Verify(env, true, domain) == Outcome(None, 1, false)
    ensures domain != "" && env.dns(0, domain, TypeTXT).Reply? && env.dns(0, domain, TypeTXT).rcode != 0
            ==> Verify(env, true, domain) == Outcome(TempError, 1, false)
  {
  }

  // ---------- One mechanism, then `-all` ----------

  /** Without includes nothing is cut off by the depth guard. */
  lemma {:induction false} NoIncludeNoGuard(env: Env, ms: seq<Mechanism>, domain: string, depth: nat, q: nat)
    requires depth <= MAX_DEPTH && forall i :: 0 <= i < |ms| ==> ms[i].name != "include" || ms[i].value == ""
    ensures !EvaluateTerms(env, ms, domain, depth, q).guardHit
  {
    if ms != [] {
      NoIncludeNoGuard(env, ms[1..], domain, depth, EvaluateMechanism(env, ms[0], domain, depth, q).queries);
    }
  }

  /** An include of a domain without a record is no matter of depth either. */
  lemma {:induction false} IncludeWithoutRecord(env: Env, x: string, depth: nat, q: nat)
    requires depth <= MAX_DEPTH
    ensures GetSPFRecord(env, x, q).NoRecord? ==> EvaluateInclude(env, x, depth, q) == Outcome(PermError, q + 1, false)
    ensures GetSPFRecord(env, x, q).LookupError? ==> EvaluateInclude(env, x, depth, q) == Outcome(TempError, q + 1, false)
  {
  }

  /** The verdict on a `+`-qualified mechanism followed by `-all`. */
  function ThenFail(env: Env, name: string, value: string, domain: string, depth: nat, q: nat): Status
    requires depth <= MAX_DEPTH
  {
    EvaluateTerms(env, [Mechanism('+', name, value), ALL_FAIL], domain, depth, q).status
  }

  lemma {:induction false} LeafThenFail(env: Env, name: string, value: string, domain: string, depth: nat, q: nat)
    requires depth <= MAX_DEPTH && IsLeaf(name)
    ensures ThenFail(env, name, value, domain, depth, q)
            == match EvaluateLeaf(env, Mechanism('+', name, value), domain, q).0
               case Match => Pass
               case NoMatch => Fail
               case LeafError => TempError
  {
    var m := Mechanism('+', name, value);
    var ms := [m, ALL_FAIL];
    assert ms[1..] == [ALL_FAIL];
    var first := EvaluateMechanism(env, m, domain, depth, q);
    SingleTerm(env, ALL_FAIL, domain, depth, first.queries);
  }

  /** A record text of that kind is read as those two mechanisms. */
  lemma {:induction false} ThenFailText(env: Env, name: string, value: string, domain: string, depth: nat, q: nat)
    requires depth <= MAX_DEPTH && name in {"a", "mx", "ip4", "ip6", "exists"}
    requires NoSpace(value) && (name in {"a", "mx"} ==> '=' !in value)
    ensures EvaluateSPF(env, "v=spf1 " + (name + ":" + value) + " " + "-all", domain, depth, q).status
            == ThenFail(env, name, value, domain, depth, q)
  {
    hide ParseMechanism, ParseTerms, TermsOf, EvaluateTerms, IsModifier;
    var word := name + ":" + value;
    WordHasNoSpace(name, value);
    PlainFail();
    TwoWords(word, "-all");
    ReadWord("", name, value);
    assert "" + name + ":" + value == word;
    ReadWord("-", "all", "");
    assert "-" + "all" == "-all";
    NotSkipped(name, value);
    TwoTerms(word, "-all");
  }

  lemma {:induction false} TwoTerms(a: string, b: string)
    requires !IsModifier(a) && !IsModifier(b)
    ensures ParseTerms([a, b]) == [ParseMechanism(a), ParseMechanism(b)]
  {
    hide ParseMechanism, IsModifier;
    var terms, tail := [a, b], [b];
    assert terms[1..] == tail && tail[1..] == [];
    assert ParseTerms(tail) == [ParseMechanism(b)];
  }

  lemma {:induction false} WordHasNoSpace(name: string, value: string)
    requires name in {"a", "mx", "ip4", "ip6", "exists"} && NoSpace(value)
    ensures NoSpace(name + ":" + value) && name[0] !in {'+', '-', '~', '?'} && ':' !in name
  {
    assert NoSpace(name);
  }

  lemma {:induction false} PlainFail()
    ensures !IsModifier("-all") && NoSpace("-all")
  {
  }

  lemma {:induction false} NotSkipped(name: string, value: string)
    requires name in {"a", "mx", "ip4", "ip6", "exists"} && (name in {"a", "mx"} ==> '=' !in value)
    ensures !IsModifier(name + ":" + value)
  {
    var word := name + ":" + value;
    if name in {"a", "mx"} {
      assert '=' !in name && '=' !in ":";
    } else {
      Exempt(name, value);
    }
  }

  /** ip4 and ip6 match exactly the senders in the network; a bare address stands for itself alone. */
  lemma {:induction false} VerdictOfNetwork(env: Env, value: string, domain: string, depth: nat, q: nat)
    requires depth <= MAX_DEPTH
    ensures ThenFail(env, "ip4", value, domain, depth, q)
            == match env.cidr(if '/' in value then value else value + "/32")
               case BadCidr => TempError
               case Network(contains) => if contains then Pass else Fail
    ensures ThenFail(env, "ip6", value, domain, depth, q)
            == match env.cidr(if '/' in value then value else value + "/128")
               case BadCidr => TempError
               case Network(contains) => if contains then Pass else Fail
  {
    LeafThenFail(env, "ip4", value, domain, depth, q);
    LeafThenFail(env, "ip6", value, domain, depth, q);
  }

  /** `a` matches exactly when the sender is among the addresses of the named or the current domain. */
  lemma {:induction false} VerdictOfAddress(env: Env, value: string, domain: string, depth: nat, q: nat)
    requires depth <= MAX_DEPTH
    ensures ThenFail(env, "a", value, domain, depth, q)
            == match env.dns(q, if value == "" then domain else value, TypeA)
               case ExchangeError => TempError
               case Reply(_, answers) => if A(env.senderIP) in answers then Pass else Fail
  {
    LeafThenFail(env, "a", value, domain, depth, q);
  }

  /** `exists` matches exactly when the expanded name has an answer at all. */
  lemma {:induction false} VerdictOfExists(env: Env, value: string, domain: string, depth: nat, q: nat)
    requires depth <= MAX_DEPTH
    ensures ThenFail(env, "exists", value, domain, depth, q)
            == match env.dns(q, env.expand(value, domain), TypeA)
               case ExchangeError => TempError
               case Reply(_, answers) => if answers == [] then Fail else Pass
  {
    LeafThenFail(env, "exists", value, domain, depth, q);
  }

  /** The MX answers before answer k: that many address lookups precede its own. */
  function MxBefore(answers: seq<Answer>, k: nat): nat
    requires k <= |answers|
  {
    if k == 0 then 0 else MxBefore(answers, k - 1) + if answers[k - 1].MX? then 1 else 0
  }

  /** Answer k names a host whose addresses, looked up in its turn, include the sender. */
  predicate HostMatches(env: Env, answers: seq<Answer>, k: nat, q: nat)
    requires k < |answers|
  {
    answers[k].MX?
    && var reply := env.dns(q + MxBefore(answers, k), answers[k].host, TypeA);
       reply.Reply? && A(env.senderIP) in reply.answers
  }

  predicate SomeHostMatches(env: Env, answers: seq<Answer>, q: nat) {
    exists k :: 0 <= k < |answers| && HostMatches(env, answers, k, q)
  }

  lemma {:induction false} MxBeforeTail(answers: seq<Answer>, k: nat)
    requires k < |answers|
    ensures MxBefore(answers, k + 1) == (if answers[0].MX? then 1 else 0) + MxBefore(answers[1..], k)
  {
    if k > 0 {
      MxBeforeTail(answers, k - 1);
      assert answers[1..][k - 1] == answers[k];
    }
  }

  lemma {:induction false} HostsMatch(env: Env, answers: seq<Answer>, q: nat)
    ensures EvaluateHosts(env, answers, q).0 == if SomeHostMatches(env, answers, q) then Match else NoMatch
  {
    if answers != [] {
      var q' := if answers[0].MX? then q + 1 else q;
      HostsMatch(env, answers[1..], q');
      forall k | 0 <= k < |answers[1..]|
        ensures HostMatches(env, answers[1..], k, q') == HostMatches(env, answers, k + 1, q)
      {
        MxBeforeTail(answers, k);
      }
      assert SomeHostMatches(env, answers, q)
             <==> HostMatches(env, answers, 0, q) || SomeHostMatches(env, answers[1..], q') by {
        if k :| 0 <= k < |answers| && HostMatches(env, answers, k, q) && k > 0 {
          assert HostMatches(env, answers[1..], k - 1, q');
        }
        if SomeHostMatches(env, answers[1..], q') {
          var k :| 0 <= k < |answers[1..]| && HostMatches(env, answers[1..], k, q');
          assert HostMatches(env, answers, k + 1, q);
        }
      }
      assert HostMatches(env, answers, 0, q)
             <==> answers[0].MX? && EvaluateA(env, answers[0].host, q) == Match;
    }
  }

  /** `mx` matches exactly when some mail host's addresses include the sender; a failing address lookup
      only skips its host. */
  lemma {:induction false} VerdictOfMailHosts(env: Env, value: string, domain: string, depth: nat, q: nat)
    requires depth <= MAX_DEPTH
    ensures ThenFail(env, "mx", value, domain, depth, q)
            == match env.dns(q, if value == "" then domain else value, TypeMX)
               case ExchangeError => TempError
               case Reply(_, answers) =>
                 if SomeHostMatches(env, answers, q + 1) then Pass else Fail
  {
    LeafThenFail(env, "mx", value, domain, depth, q);
    var reply := env.dns(q, if value == "" then domain else value, TypeMX);
    if reply.Reply? {
      HostsMatch(env, reply.answers, q + 1);
    }
  }

  /** `+include:x` matches exactly when x's own record passes; without a value or a record it is a
      permanent error. */
  lemma {:induction false} VerdictOfInclude(env: Env, x: string, domain: string, depth: nat, q: nat)
    requires depth <= MAX_DEPTH && x != ""
    ensures ThenFail(env, "include", x, domain, depth, q)
            == match GetSPFRecord(env, x, q)
               case LookupError => TempError
               case NoRecord => PermError
               case Found(record) =>
                 match EvaluateSPF(env, record, x, depth + 1, q + 1).status
                 case Pass => Pass
                 case Fail => Fail
                 case SoftFail => Fail
                 case Neutral => Fail
                 case TempError => TempError
                 case PermError => PermError
                 case None => None
    ensures ThenFail(env, "include", "", domain, depth, q) == PermError
  {
    var m := Mechanism('+', "include", x);
    var ms, empty := [m, ALL_FAIL], [Mechanism('+', "include", ""), ALL_FAIL];
    assert ms[1..] == [ALL_FAIL] && empty[1..] == [ALL_FAIL];
    var first := EvaluateMechanism(env, m, domain, depth, q);
    assert first == EvaluateInclude(env, x, depth, q);
    assert EvaluateMechanism(env, empty[0], domain, depth, q).status == PermError;
    SingleTerm(env, ALL_FAIL, domain, depth, first.queries);
  }
}
