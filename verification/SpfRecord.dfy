/** SPF record text: splitting, parsing into mechanisms, and printing back. */
module SpfRecord {

  datatype Mechanism = Mechanism(qualifier: char, name: string, value: string)

  const SPF_VERSION := "v=spf1"

  /** Go's `unicode.IsSpace`. */
  predicate IsSpace(c: char) {
    || c == ' ' || '\t' <= c <= '\r' || c == '\U{85}' || c == '\U{a0}' || c == '\U{1680}'
    || '\U{2000}' <= c <= '\U{200a}' || c == '\U{2028}' || c == '\U{2029}' || c == '\U{202f}'
    || c == '\U{205f}' || c == '\U{3000}'
  }

  /** The white-space characters one by one. */
  lemma {:induction false} SpaceCharacters(c: char)
    ensures IsSpace(c) <==>
              c in {' ', '\t', '\n', '\U{0b}', '\U{0c}', '\r', '\U{85}', '\U{a0}', '\U{1680}',
                    '\U{2000}', '\U{2001}', '\U{2002}', '\U{2003}', '\U{2004}', '\U{2005}', '\U{2006}', '\U{2007}',
                    '\U{2008}', '\U{2009}', '\U{200a}', '\U{2028}', '\U{2029}', '\U{202f}', '\U{205f}', '\U{3000}'}
  {
  }

  predicate IsQualifier(c: char) { c in {'+', '-', '~', '?'} }

  predicate HasPrefix(s: string, prefix: string) { |prefix| <= |s| && s[..|prefix|] == prefix }

  /** The length of the leading run of non-space characters. */
  function WordLength(s: string): (n: nat)
    ensures n <= |s|
    ensures forall i :: 0 <= i < n ==> !IsSpace(s[i])
    ensures n < |s| ==> IsSpace(s[n])
  {
    if s == "" || IsSpace(s[0]) then 0 else 1 + WordLength(s[1..])
  }

  /** `strings.Fields`: the maximal runs of non-space characters. */
  function Fields(s: string): seq<string>
    decreases |s|
  {
    if s == "" then []
    else if IsSpace(s[0]) then Fields(s[1..])
    else
      var n := WordLength(s);
      [s[..n]] + Fields(s[n..])
  }

  /** Terms the parser skips: anything with '=' that does not start like one of four mechanisms. */
  predicate IsModifier(part: string) {
    '=' in part && !HasPrefix(part, "include:") && !HasPrefix(part, "ip4:")
    && !HasPrefix(part, "ip6:") && !HasPrefix(part, "exists:")
  }

  /** `strings.Index` for one character; the length when absent. */
  function IndexOf(s: string, c: char): (i: nat)
    ensures i <= |s|
    ensures i < |s| ==> s[i] == c
    ensures c !in s[..i]
  {
    if s == "" || s[0] == c then 0 else 1 + IndexOf(s[1..], c)
  }

  function ParseMechanism(part: string): Mechanism {
    var qualified := part != "" && IsQualifier(part[0]);
    var body := if qualified then part[1..] else part;
    var colon := IndexOf(body, ':');
    Mechanism(if qualified then part[0] else '+', body[..colon],
              if colon < |body| then body[colon + 1..] else "")
  }

  function ParseTerms(parts: seq<string>): seq<Mechanism> {
    if parts == [] then []
    else if IsModifier(parts[0]) then ParseTerms(parts[1..])
    else [ParseMechanism(parts[0])] + ParseTerms(parts[1..])
  }

  /** The fields of a record after its version tag. */
  function TermsOf(record: string): seq<string> {
    var parts := Fields(record);
    if parts == [] then [] else parts[1..]
  }

  function ParseRecord(record: string): seq<Mechanism> { ParseTerms(TermsOf(record)) }

  lemma {:induction false} ParseTermsAppend(parts: seq<string>, last: string)
    ensures ParseTerms(parts + [last])
            == ParseTerms(parts) + if IsModifier(last) then [] else [ParseMechanism(last)]
  {
    if parts == [] {
      assert [] + [last] == [last] && [last][1..] == [];
    } else {
      assert (parts + [last])[1..] == parts[1..] + [last];
      ParseTermsAppend(parts[1..], last);
    }
  }

  /** `parseSPFRecord`: a loop over the fields, the version tag skipped. */
  method ParseSPFRecord(record: string) returns (mechanisms: seq<Mechanism>)
    ensures mechanisms == ParseRecord(record)
  {
    mechanisms := [];
    var parts := Fields(record);
    if parts == [] {
      return;
    }
    ghost var terms := TermsOf(record);
    for i := 1 to |parts|
      invariant mechanisms == ParseTerms(terms[..i - 1])
    {
      assert terms[..i] == terms[..i - 1] + [parts[i]];
      ParseTermsAppend(terms[..i - 1], parts[i]);
      if !IsModifier(parts[i]) {
        mechanisms := mechanisms + [ParseMechanism(parts[i])];
      }
    }
    assert terms[..|terms|] == terms;
  }

  // ---------- Printing and the round trip ----------

  function RenderMechanism(m: Mechanism): string {
    [m.qualifier] + m.name + if m.value == "" then "" else ":" + m.value
  }

  function RenderTerms(ms: seq<Mechanism>): string {
    if ms == [] then "" else " " + RenderMechanism(ms[0]) + RenderTerms(ms[1..])
  }

  function RenderRecord(ms: seq<Mechanism>): string { SPF_VERSION + RenderTerms(ms) }

  predicate NoSpace(s: string) { forall i :: 0 <= i < |s| ==> !IsSpace(s[i]) }

  predicate Printable(m: Mechanism) {
    IsQualifier(m.qualifier) && ':' !in m.name && NoSpace(m.name) && NoSpace(m.value)
  }

  lemma {:induction false} IndexOfFirst(a: string, c: char, b: string)
    requires c !in a
    ensures IndexOf(a + [c] + b, c) == |a|
  {
    if a != "" {
      assert (a + [c] + b)[1..] == a[1..] + [c] + b;
      IndexOfFirst(a[1..], c, b);
    }
  }

  lemma {:induction false} IndexOfAbsent(a: string, c: char)
    requires c !in a
    ensures IndexOf(a, c) == |a|
  {
    if a != "" {
      IndexOfAbsent(a[1..], c);
    }
  }

  lemma {:induction false} MechanismRoundTrip(m: Mechanism)
    requires Printable(m)
    ensures ParseMechanism(RenderMechanism(m)) == m
    ensures NoSpace(RenderMechanism(m)) && RenderMechanism(m) != ""
  {
    ParseRendered(m);
  }

  lemma {:induction false} ParseRendered(m: Mechanism)
    requires IsQualifier(m.qualifier) && ':' !in m.name
    ensures ParseMechanism(RenderMechanism(m)) == m
  {
    hide IndexOf;
    var part := RenderMechanism(m);
    if m.value == "" {
      assert part[1..] == m.name;
      IndexOfAbsent(m.name, ':');
    } else {
      assert part[1..] == m.name + [':'] + m.value;
      SplitAtColon(m.name, m.value);
    }
  }

  lemma {:induction false} SplitAtColon(name: string, value: string)
    requires ':' !in name
    ensures var body := name + [':'] + value;
            IndexOf(body, ':') == |name| && body[..|name|] == name && body[|name| + 1..] == value
  {
    IndexOfFirst(name, ':', value);
  }

  lemma {:induction false} WordLengthOf(word: string, rest: string)
    requires NoSpace(word) && (rest == "" || IsSpace(rest[0]))
    ensures WordLength(word + rest) == |word|
  {
    if word == "" {
      assert word + rest == rest;
    } else {
      assert (word + rest)[1..] == word[1..] + rest;
      WordLengthOf(word[1..], rest);
    }
  }

  lemma {:induction false} FieldsOfWord(word: string, rest: string)
    requires word != "" && NoSpace(word) && (rest == "" || IsSpace(rest[0]))
    ensures Fields(word + rest) == [word] + Fields(rest)
  {
    WordLengthOf(word, rest);
    assert (word + rest)[..|word|] == word && (word + rest)[|word|..] == rest;
  }

  lemma {:induction false} FieldsAfterSpace(s: string)
    ensures Fields(" " + s) == Fields(s)
  {
    assert (" " + s)[1..] == s;
  }

  /** A printed term is skipped as a modifier exactly when it contains '=': the exemption for
      `include:`, `ip4:`, `ip6:` and `exists:` does not see past an explicit qualifier. */
  lemma {:induction false} PrintedModifier(m: Mechanism)
    requires Printable(m)
    ensures IsModifier(RenderMechanism(m)) <==> '=' in RenderMechanism(m)
  {
    assert RenderMechanism(m)[0] == m.qualifier;
    assert "include:"[0] == 'i' && "ip4:"[0] == 'i' && "ip6:"[0] == 'i' && "exists:"[0] == 'e';
  }

  function Kept(ms: seq<Mechanism>): seq<Mechanism> {
    if ms == [] then []
    else (if '=' in RenderMechanism(ms[0]) then [] else [ms[0]]) + Kept(ms[1..])
  }

  lemma {:induction false} FieldsOfTerms(ms: seq<Mechanism>)
    requires ms != [] && NoSpace(RenderMechanism(ms[0])) && RenderMechanism(ms[0]) != ""
    ensures Fields(RenderTerms(ms)) == [RenderMechanism(ms[0])] + Fields(RenderTerms(ms[1..]))
  {
    hide Fields, RenderMechanism;
    var word, rest := RenderMechanism(ms[0]), RenderTerms(ms[1..]);
    assert RenderTerms(ms) == " " + (word + rest);
    FieldsAfterSpace(word + rest);
    FieldsOfWord(word, rest);
  }

  /** The printed mechanisms, one string each. */
  function Rendered(ms: seq<Mechanism>): seq<string> {
    if ms == [] then [] else [RenderMechanism(ms[0])] + Rendered(ms[1..])
  }

  lemma {:induction false} FieldsOfRendered(ms: seq<Mechanism>)
    requires forall i :: 0 <= i < |ms| ==> Printable(ms[i])
    ensures Fields(RenderTerms(ms)) == Rendered(ms)
  {
    if ms != [] {
      hide Fields, RenderTerms, Printable;
      MechanismRoundTrip(ms[0]);
      FieldsOfTerms(ms);
      FieldsOfRendered(ms[1..]);
    }
  }

  lemma {:induction false} TermsOfRendered(ms: seq<Mechanism>)
    requires forall i :: 0 <= i < |ms| ==> Printable(ms[i])
    ensures TermsOf(RenderRecord(ms)) == Rendered(ms)
  {
    assert NoSpace(SPF_VERSION);
    hide Fields, RenderTerms;
    TermsStartWithSpace(ms);
    FieldsOfWord(SPF_VERSION, RenderTerms(ms));
    FieldsOfRendered(ms);
  }

  lemma {:induction false} TermsStartWithSpace(ms: seq<Mechanism>)
    ensures RenderTerms(ms) == "" || IsSpace(RenderTerms(ms)[0])
  {
  }

  lemma {:induction false} ParseRenderedTerms(ms: seq<Mechanism>)
    requires forall i :: 0 <= i < |ms| ==> Printable(ms[i])
    ensures ParseTerms(Rendered(ms)) == Kept(ms)
  {
    if ms != [] {
      hide IsModifier, ParseMechanism, RenderMechanism, Printable;
      MechanismRoundTrip(ms[0]);
      PrintedModifier(ms[0]);
      ParseRenderedTerms(ms[1..]);
      assert Rendered(ms)[1..] == Rendered(ms[1..]);
    }
  }

  /** Printing any mechanisms with their qualifiers and parsing the record gives back all of them
      but those containing '='. */
  lemma {:induction false} RecordRoundTrip(ms: seq<Mechanism>)
    requires forall i :: 0 <= i < |ms| ==> Printable(ms[i])
    ensures ParseRecord(RenderRecord(ms)) == Kept(ms)
    ensures (forall i :: 0 <= i < |ms| ==> '=' !in RenderMechanism(ms[i])) ==> ParseRecord(RenderRecord(ms)) == ms
  {
    TermsOfRendered(ms);
    ParseRenderedTerms(ms);
    KeptAll(ms);
  }

  lemma {:induction false} KeptAll(ms: seq<Mechanism>)
    ensures (forall i :: 0 <= i < |ms| ==> '=' !in RenderMechanism(ms[i])) ==> Kept(ms) == ms
  {
    if ms != [] {
      KeptAll(ms[1..]);
    }
  }
}
