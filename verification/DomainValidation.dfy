/** Domain ownership: the DNS checks and the life of a domain's verification status. */
module DomainValidation {
  import opened Basics
  import opened Backoff
  import opened Text

  /** Deployment settings; `lower` is the lowercasing of one character. */
  datatype Config = Config(
    expectedServers: seq<string>, txtPrefix: string, maxRetries: int, retryDelay: int, lower: char -> char)

  datatype Lookup = LookupFailed | Records(values: seq<string>)

  // ---------- The DNS checks ----------

  /** MX hosts come with a trailing dot. */
  function TrimDot(host: string): (r: string)
    ensures host == r || host == r + "."
    ensures host != "" && host[|host| - 1] == '.' ==> host == r + "."
    ensures host == "" || host[|host| - 1] != '.' ==> host == r
  {
    if host != "" && host[|host| - 1] == '.' then host[..|host| - 1] else host
  }

  predicate HasHost(c: Config, hosts: seq<string>, server: string) {
    exists i :: 0 <= i < |hosts| && ToLower(c.lower, TrimDot(hosts[i])) == ToLower(c.lower, server)
  }

  /** A non-empty answer that names every expected server, whatever the case. */
  predicate MxValid(c: Config, mx: Lookup) {
    mx.Records? && mx.values != []
    && forall k :: 0 <= k < |c.expectedServers| ==> HasHost(c, mx.values, c.expectedServers[k])
  }

  function ExpectedTxt(c: Config, token: string): string { c.txtPrefix + "=" + token }

  /** Some TXT record is the expected one; the code compares without regard to case. */
  predicate TxtValid(c: Config, txt: Lookup, token: string) {
    txt.Records?
    && exists i :: 0 <= i < |txt.values| && ToLower(c.lower, txt.values[i]) == ToLower(c.lower, ExpectedTxt(c, token))
  }

  function Missing(c: Config, hosts: seq<string>, expected: seq<string>): seq<string> {
    if expected == [] then []
    else
      var n := |expected| - 1;
      Missing(c, hosts, expected[..n]) + if HasHost(c, hosts, expected[n]) then [] else [expected[n]]
  }

  predicate IsExpected(c: Config, host: string) {
    exists k :: 0 <= k < |c.expectedServers| && ToLower(c.lower, c.expectedServers[k]) == ToLower(c.lower, host)
  }

  /** The answered hosts that are not expected, in order. */
  function Extra(c: Config, hosts: seq<string>): seq<string> {
    if hosts == [] then []
    else
      var n := |hosts| - 1;
      Extra(c, hosts[..n]) + if IsExpected(c, TrimDot(hosts[n])) then [] else [TrimDot(hosts[n])]
  }

  lemma {:induction false} MissingNone(c: Config, hosts: seq<string>, expected: seq<string>)
    ensures Missing(c, hosts, expected) == [] <==> forall k :: 0 <= k < |expected| ==> HasHost(c, hosts, expected[k])
  {
    hide HasHost;
    MissingMembers(c, hosts, expected);
    var missing := Missing(c, hosts, expected);
    assert missing != [] ==> missing[0] in missing;
    assert forall k :: 0 <= k < |expected| ==> expected[k] in expected;
  }

  lemma {:induction false} MissingMembers(c: Config, hosts: seq<string>, expected: seq<string>)
    ensures forall server :: server in Missing(c, hosts, expected)
              <==> server in expected && !HasHost(c, hosts, server)
  {
    if expected != [] {
      hide HasHost;
      var n := |expected| - 1;
      MissingMembers(c, hosts, expected[..n]);
      assert expected == expected[..n] + [expected[n]];
    }
  }

  /** The extra hosts: answered, and equal to no expected server up to case. */
  lemma {:induction false} ExtraMembers(c: Config, hosts: seq<string>)
    ensures forall host :: host in Extra(c, hosts)
              <==> (exists i :: 0 <= i < |hosts| && TrimDot(hosts[i]) == host)
                   && forall k :: 0 <= k < |c.expectedServers| ==>
                        ToLower(c.lower, c.expectedServers[k]) != ToLower(c.lower, host)
  {
    ExtraMembersOf(c, hosts);
    assert forall host :: Answered(hosts, host) <==> exists i :: 0 <= i < |hosts| && TrimDot(hosts[i]) == host;
  }

  predicate Answered(hosts: seq<string>, host: string) { exists i :: 0 <= i < |hosts| && TrimDot(hosts[i]) == host }

  lemma {:induction false} AnsweredLast(hosts: seq<string>, host: string)
    requires hosts != []
    ensures var n := |hosts| - 1;
            Answered(hosts, host) <==> Answered(hosts[..n], host) || host == TrimDot(hosts[n])
  {
    var n := |hosts| - 1;
    if i :| 0 <= i < n && TrimDot(hosts[i]) == host {
      assert hosts[..n][i] == hosts[i];
    }
  }

  lemma {:induction false} ExtraMembersOf(c: Config, hosts: seq<string>)
    ensures forall host :: host in Extra(c, hosts) <==> Answered(hosts, host) && !IsExpected(c, host)
  {
    if hosts != [] {
      hide IsExpected, Answered, TrimDot;
      var n := |hosts| - 1;
      ExtraMembersOf(c, hosts[..n]);
      forall host ensures Answered(hosts, host) <==> Answered(hosts[..n], host) || host == TrimDot(hosts[n]) {
        AnsweredLast(hosts, host);
      }
    } else {
      assert forall host :: !Answered(hosts, host);
    }
  }

  /** The lowercased names of some servers, collected in a loop. */
  method LowerSet(c: Config, servers: seq<string>) returns (names: set<string>)
    ensures forall x :: x in names <==> exists k :: 0 <= k < |servers| && ToLower(c.lower, servers[k]) == x
  {
    names := {};
    for i := 0 to |servers|
      invariant forall x :: x in names <==> exists k :: 0 <= k < i && ToLower(c.lower, servers[k]) == x
    {
      names := names + {ToLower(c.lower, servers[i])};
    }
  }

  function Trimmed(hosts: seq<string>): seq<string> { seq(|hosts|, i requires 0 <= i < |hosts| => TrimDot(hosts[i])) }

  /** `ValidateMXRecords`: two sets of lowercased names and a search of each list in the other's set. */
  method ValidateMXRecords(c: Config, mx: Lookup) returns (valid: bool, missing: seq<string>, extra: seq<string>)
    ensures valid <==> MxValid(c, mx)
    ensures valid <==> mx.Records? && |mx.values| > 0
                       && forall k :: 0 <= k < |c.expectedServers| ==>
                            exists i :: 0 <= i < |mx.values|
                              && ToLower(c.lower, TrimDot(mx.values[i])) == ToLower(c.lower, c.expectedServers[k])
    ensures mx.Records? ==>
              forall server :: server in missing <==>
                server in c.expectedServers
                && forall i :: 0 <= i < |mx.values| ==>
                     ToLower(c.lower, TrimDot(mx.values[i])) != ToLower(c.lower, server)
    ensures mx.Records? ==> missing == Missing(c, mx.values, c.expectedServers) && extra == Extra(c, mx.values)
    ensures mx.LookupFailed? ==> missing == [] && extra == []
  {
    if mx.LookupFailed? {
      return false, [], [];
    }
    var hosts := mx.values;
    missing := FindMissing(c, hosts);
    MissingMembers(c, hosts, c.expectedServers);
    extra := FindExtra(c, hosts);
    MissingNone(c, hosts, c.expectedServers);
    valid := missing == [] && hosts != [];
  }

  method FindMissing(c: Config, hosts: seq<string>) returns (missing: seq<string>)
    ensures missing == Missing(c, hosts, c.expectedServers)
  {
    var trimmed := Trimmed(hosts);
    var found := LowerSet(c, trimmed);
    missing := [];
    var expected := c.expectedServers;
    for i := 0 to |expected|
      invariant missing == Missing(c, hosts, expected[..i])
    {
      assert expected[..i + 1][..i] == expected[..i];
      assert ToLower(c.lower, expected[i]) in found <==> HasHost(c, hosts, expected[i]) by {
        assert forall k :: 0 <= k < |hosts| ==> trimmed[k] == TrimDot(hosts[k]);
      }
      if ToLower(c.lower, expected[i]) !in found {
        missing := missing + [expected[i]];
      }
    }
    assert expected[..|expected|] == expected;
  }

  method FindExtra(c: Config, hosts: seq<string>) returns (extra: seq<string>)
    ensures extra == Extra(c, hosts)
  {
    var expected := LowerSet(c, c.expectedServers);
    extra := [];
    for i := 0 to |hosts|
      invariant extra == Extra(c, hosts[..i])
    {
      assert hosts[..i + 1][..i] == hosts[..i];
      if ToLower(c.lower, TrimDot(hosts[i])) !in expected {
        extra := extra + [TrimDot(hosts[i])];
      }
    }
    assert hosts[..|hosts|] == hosts;
  }

  /** `ValidateTXTRecord`: the first matching record ends the search. */
  method ValidateTXTRecord(c: Config, txt: Lookup, token: string) returns (valid: bool)
    ensures valid <==> TxtValid(c, txt, token)
    ensures valid <==> txt.Records?
                       && exists i :: 0 <= i < |txt.values|
                            && ToLower(c.lower, txt.values[i]) == ToLower(c.lower, c.txtPrefix + "=" + token)
  {
    if txt.LookupFailed? {
      return false;
    }
    var wanted := ToLower(c.lower, ExpectedTxt(c, token));
    for i := 0 to |txt.values|
      invariant forall k :: 0 <= k < i ==> ToLower(c.lower, txt.values[k]) != wanted
    {
      if ToLower(c.lower, txt.values[i]) == wanted {
        return true;
      }
    }
    valid := false;
  }

  /** One record cannot prove two tokens, unless they differ in case only. */
  lemma {:induction false} OneTokenPerRecord(c: Config, record: string, first: string, second: string)
    requires TxtValid(c, Records([record]), first) && TxtValid(c, Records([record]), second)
    ensures ToLower(c.lower, first) == ToLower(c.lower, second)
  {
    var prefix := c.txtPrefix + "=";
    var n := |prefix|;
    LowerConcat(c.lower, prefix, first);
    LowerConcat(c.lower, prefix, second);
    var lowered := ToLower(c.lower, record);
    LowerAt(c.lower, prefix);
    assert lowered[n..] == ToLower(c.lower, first) && lowered[n..] == ToLower(c.lower, second);
  }

  // ---------- The life of a domain ----------

  datatype Status = Pending | Validating | Verified | Failed | Expired

  datatype Row = Row(name: string, token: string, status: Status, attempts: int, nextAttempt: Option<int>)

  /** A completed pair of DNS checks, as history. */
  datatype Check = Check(id: nat, token: string, mx: Lookup, txt: Lookup)

  predicate Passes(c: Config, k: Check) { MxValid(c, k.mx) && TxtValid(c, k.txt, k.token) }

  /** This check of this domain got an MX answer naming every expected host, and a TXT answer with the
      prefix, an equals sign and the token. */
  predicate FoundAll(c: Config, check: Check, id: nat, token: string) {
    && check.id == id && check.mx.Records? && check.txt.Records? && |check.mx.values| > 0
    && (forall k :: 0 <= k < |c.expectedServers| ==>
          exists i :: 0 <= i < |check.mx.values|
            && ToLower(c.lower, TrimDot(check.mx.values[i])) == ToLower(c.lower, c.expectedServers[k]))
    && exists i :: 0 <= i < |check.txt.values|
         && ToLower(c.lower, check.txt.values[i]) == ToLower(c.lower, c.txtPrefix + "=" + token)
  }

  lemma {:induction false} FoundAllIff(c: Config, check: Check)
    ensures FoundAll(c, check, check.id, check.token) <==> Passes(c, check)
  {
    var mx := check.mx;
    if mx.Records? {
      assert forall k :: 0 <= k < |c.expectedServers| ==>
          (HasHost(c, mx.values, c.expectedServers[k])
           <==> exists i :: 0 <= i < |mx.values|
                  && ToLower(c.lower, TrimDot(mx.values[i])) == ToLower(c.lower, c.expectedServers[k]));
    }
  }

  /** What a call in progress holds between its database operations. */
  datatype Task =
    | Fetched(id: nat, row: Row)        // the row as read, possibly stale by now
    | Examined(id: nat, passed: bool)   // DNS checks done, status not yet written

  /** `tokens`, `log` and `stored` are history: the token each domain was created with, the checks
      made, and the domain of every email stored. */
  datatype State = State(
    rows: map<nat, Row>, tasks: map<nat, Task>, tokens: map<nat, string>, log: seq<Check>, stored: seq<nat>)

  datatype Step =
    | Create(id: nat, name: string, token: string)
    | Fetch(t: nat, id: nat)                       // GetByID, by any call
    | Mark(id: nat, status: Status)                // a status write other than Verified
    | CountAttempt(id: nat, attempts: int, next: Option<int>)  // UpdateDomainVerificationAttempt
    | Examine(t: nat, mx: Lookup, txt: Lookup)     // ValidateFullDomain with the fetched token
    | Conclude(t: nat, written: bool)              // Verified or Failed; the write may fail
    | WriteBack(t: nat)                            // UpdateDomain: the whole fetched row, status included
    | Deliver(id: nat)                             // SMTP session: store an email for the domain
    | Remove(id: nat)

  predicate Enabled(s: State, step: Step) {
    match step
    case Create(id, _, _) => id !in s.tokens
    case Fetch(_, id) => id in s.rows
    case Mark(_, status) => status != Verified
    case CountAttempt(_, _, _) => true
    case Examine(t, _, _) => t in s.tasks && s.tasks[t].Fetched?
    case Conclude(t, _) => t in s.tasks && s.tasks[t].Examined?
    case WriteBack(t) => t in s.tasks && s.tasks[t].Fetched?
    case Deliver(id) => id in s.rows && s.rows[id].status == Verified
    case Remove(_) => true
  }

  function WithStatus(rows: map<nat, Row>, id: nat, status: Status): map<nat, Row> {
    if id in rows then rows[id := rows[id].(status := status)] else rows
  }

  function WithAttempt(rows: map<nat, Row>, id: nat, attempts: int, next: Option<int>): map<nat, Row> {
    if id in rows then rows[id := rows[id].(attempts := attempts, nextAttempt := next)] else rows
  }

  function SetStatus(s: State, id: nat, status: Status): State { s.(rows := WithStatus(s.rows, id, status)) }

  function Next(c: Config, s: State, step: Step): State
    requires Enabled(s, step)
  {
    match step
    case Create(id, name, token) =>
      s.(rows := s.rows[id := Row(name, token, Pending, 0, None)], tokens := s.tokens[id := token])
    case Fetch(t, id) => s.(tasks := s.tasks[t := Fetched(id, s.rows[id])])
    case Mark(id, status) => SetStatus(s, id, status)
    case CountAttempt(id, attempts, next) => s.(rows := WithAttempt(s.rows, id, attempts, next))
    case Examine(t, mx, txt) =>
      var k := Check(s.tasks[t].id, s.tasks[t].row.token, mx, txt);
      s.(log := s.log + [k], tasks := s.tasks[t := Examined(k.id, Passes(c, k))])
    case Conclude(t, written) =>
      var s1 := s.(tasks := s.tasks - {t});
      if written then SetStatus(s1, s.tasks[t].id, if s.tasks[t].passed then Verified else Failed) else s1
    case WriteBack(t) =>
      var task := s.tasks[t];
      if task.id in s.rows then s.(rows := s.rows[task.id := task.row], tasks := s.tasks - {t}) else s.(tasks := s.tasks - {t})
    case Deliver(id) => s.(stored := s.stored + [id])
    case Remove(id) => s.(rows := s.rows - {id})
  }

  const INIT := State(map[], map[], map[], [], [])

  predicate IsRun(c: Config, s: State, steps: seq<Step>)
    decreases |steps|
  {
    steps == [] || (Enabled(s, steps[0]) && IsRun(c, Next(c, s, steps[0]), steps[1..]))
  }

  function Run(c: Config, s: State, steps: seq<Step>): State
    requires IsRun(c, s, steps)
    decreases |steps|
  {
    if steps == [] then s else Run(c, Next(c, s, steps[0]), steps[1..])
  }

  /** Some earlier check of this domain, with the domain's own token, found everything. */
  predicate Proven(c: Config, s: State, id: nat) {
    id in s.tokens
    && exists i :: 0 <= i < |s.log| && s.log[i].id == id && s.log[i].token == s.tokens[id] && Passes(c, s.log[i])
  }

  predicate RowOk(c: Config, s: State, id: nat, row: Row) {
    id in s.tokens && row.token == s.tokens[id] && (row.status == Verified ==> Proven(c, s, id))
  }

  predicate TaskOk(c: Config, s: State, task: Task) {
    match task
    case Fetched(id, row) => RowOk(c, s, id, row)
    case Examined(id, passed) => passed ==> Proven(c, s, id)
  }

  predicate Inv(c: Config, s: State) {
    && (forall id :: id in s.rows ==> RowOk(c, s, id, s.rows[id]))
    && (forall t :: t in s.tasks ==> TaskOk(c, s, s.tasks[t]))
    && (forall i :: 0 <= i < |s.stored| ==> Proven(c, s, s.stored[i]))
  }

  /** History only grows, so what is proven stays proven. */
  lemma {:induction false} ProvenPersists(c: Config, s: State, step: Step, id: nat)
    requires Enabled(s, step) && Proven(c, s, id)
    ensures Proven(c, Next(c, s, step), id)
  {
    var i :| 0 <= i < |s.log| && s.log[i].id == id && s.log[i].token == s.tokens[id] && Passes(c, s.log[i]);
    assert Next(c, s, step).log[i] == s.log[i];
  }

  lemma {:induction false} ExamineProves(c: Config, s: State, step: Step)
    requires Enabled(s, step) && step.Examine? && Inv(c, s)
    ensures TaskOk(c, Next(c, s, step), Next(c, s, step).tasks[step.t])
  {
    var u := Next(c, s, step);
    assert u.log[|s.log|].id == s.tasks[step.t].id;
  }

  lemma {:induction false} InvStep(c: Config, s: State, step: Step)
    requires Enabled(s, step) && Inv(c, s)
    ensures Inv(c, Next(c, s, step))
  {
    forall id | Proven(c, s, id) ensures Proven(c, Next(c, s, step), id) {
      ProvenPersists(c, s, step, id);
    }
    if step.Examine? {
      ExamineProves(c, s, step);
    }
  }

  lemma {:induction false} InvRun(c: Config, s: State, steps: seq<Step>)
    requires IsRun(c, s, steps) && Inv(c, s)
    ensures Inv(c, Run(c, s, steps))
    decreases |steps|
  {
    if steps != [] {
      InvStep(c, s, steps[0]);
      InvRun(c, Next(c, s, steps[0]), steps[1..]);
    }
  }

  /** In every interleaving of creations, validations, retries, failing writes, stale whole-row updates,
      deletions and deliveries: a domain is Verified, and an email is stored for it, only if some
      earlier check found every expected MX host and the domain's own token record. */
  lemma {:induction false} VerifiedOnlyIfProven(c: Config, steps: seq<Step>, id: nat)
    requires IsRun(c, INIT, steps)
    ensures var s := Run(c, INIT, steps);
            && (id in s.rows && s.rows[id].status == Verified ==> Proven(c, s, id))
            && (id in s.stored ==> Proven(c, s, id))
            && (Proven(c, s, id) ==>
                  id in s.tokens && exists i :: 0 <= i < |s.log| && FoundAll(c, s.log[i], id, s.tokens[id]))
  {
    InvRun(c, INIT, steps);
    var s := Run(c, INIT, steps);
    if Proven(c, s, id) {
      var i :| 0 <= i < |s.log| && s.log[i].id == id && s.log[i].token == s.tokens[id] && Passes(c, s.log[i]);
      FoundAllIff(c, s.log[i]);
    }
  }

  /** What the steps around a validation do to the stored rows. */
  lemma {:induction false} StepsInTerms(c: Config, s: State, t: nat, id: nat, name: string, token: string)
    ensures Enabled(s, Remove(id)) && Next(c, s, Remove(id)).rows == s.rows - {id}
    ensures id !in s.tokens ==>
              Enabled(s, Create(id, name, token))
              && Next(c, s, Create(id, name, token)).rows == s.rows[id := Row(name, token, Pending, 0, None)]
    ensures Enabled(s, Deliver(id)) <==> id in s.rows && s.rows[id].status == Verified
    ensures t in s.tasks && s.tasks[t].Fetched? ==>
              Enabled(s, WriteBack(t))
              && Next(c, s, WriteBack(t)).rows
                 == if s.tasks[t].id in s.rows then s.rows[s.tasks[t].id := s.tasks[t].row] else s.rows
    ensures t in s.tasks && s.tasks[t].Examined? ==>
              && Enabled(s, Conclude(t, false)) && Next(c, s, Conclude(t, false)).rows == s.rows
              && Enabled(s, Conclude(t, true))
              && (s.tasks[t].id in s.rows ==>
                    Next(c, s, Conclude(t, true)).rows
                    == s.rows[s.tasks[t].id := s.rows[s.tasks[t].id].(status := if s.tasks[t].passed then Verified else Failed)])
  {
  }

  // ---------- The use case ----------

  datatype ValidationResult = NotFound | NoToken | RecordNotCreated | StatusNotReset | Completed(overall: bool)

  /** What the database does in one status update: the status write, the re-read, the attempt write. */
  datatype Writes = Writes(status: bool, reread: bool, attempt: bool)

  predicate UpdateSucceeds(rows: map<nat, Row>, id: nat, w: Writes) {
    w.status && w.reread && id in rows && w.attempt
  }

  /** When the domain is next tried, after its attempts-th attempt. */
  function NextAttempt(c: Config, status: Status, attempts: int, now: int): Option<int> {
    if status == Failed && attempts < c.maxRetries
    then Some(now + CalculateRetryDelay(attempts, c.retryDelay)) else None
  }

  /** The rows after a status update: a failure part-way leaves the status written. */
  function AfterUpdate(c: Config, rows: map<nat, Row>, id: nat, status: Status, w: Writes, now: int): map<nat, Row> {
    var written := if w.status then WithStatus(rows, id, status) else rows;
    if UpdateSucceeds(rows, id, w)
    then WithAttempt(written, id, rows[id].attempts + 1, NextAttempt(c, status, rows[id].attempts + 1, now))
    else written
  }

  lemma {:induction false} RunTwo(c: Config, s: State, a: Step, b: Step)
    requires Enabled(s, a) && Enabled(Next(c, s, a), b)
    ensures IsRun(c, s, [a, b]) && Run(c, s, [a, b]) == Next(c, Next(c, s, a), b)
  {
    hide Enabled, Next;
    var steps, rest := [a, b], [b];
    assert steps[1..] == rest && rest[1..] == [];
    assert IsRun(c, Next(c, s, a), rest) && Run(c, Next(c, s, a), rest) == Next(c, Next(c, s, a), b);
  }

  /** A status update other than to Verified is a run of steps, however far it gets. */
  lemma {:induction false} UpdateIsRun(c: Config, s: State, id: nat, status: Status, w: Writes, now: int)
    returns (steps: seq<Step>)
    requires status != Verified
    ensures IsRun(c, s, steps) && Run(c, s, steps) == s.(rows := AfterUpdate(c, s.rows, id, status, w, now))
  {
    var mark := Mark(id, status);
    steps := [];
    if UpdateSucceeds(s.rows, id, w) {
      var n := s.rows[id].attempts + 1;
      steps := [mark, CountAttempt(id, n, NextAttempt(c, status, n, now))];
      RunTwo(c, s, mark, steps[1]);
    } else if w.status {
      steps := [mark];
      assert steps[1..] == [];
    }
  }

  lemma {:induction false} ChecksKeepInv(c: Config, s: State, id: nat, mx: Lookup, txt: Lookup)
    requires Inv(c, s) && s.tasks == map[] && id in s.rows
    ensures var k := Check(id, s.rows[id].token, mx, txt);
            && Inv(c, s.(log := s.log + [k])) && (Passes(c, k) ==> Proven(c, s.(log := s.log + [k]), id))
  {
    var k := Check(id, s.rows[id].token, mx, txt);
    var started := s.(tasks := map[0 := Fetched(id, s.rows[id])]);
    var t := s.(log := s.log + [k]);
    InvStep(c, started, Examine(0, mx, txt));
    assert forall x :: Proven(c, t, x) == Proven(c, Next(c, started, Examine(0, mx, txt)), x);
    assert RowOk(c, s, id, s.rows[id]);
    assert t.log[|s.log|] == k;
  }

  lemma {:induction false} StatusKeepsInv(c: Config, s: State, id: nat, status: Status)
    requires Inv(c, s) && (status == Verified ==> Proven(c, s, id))
    ensures Inv(c, SetStatus(s, id, status))
  {
    var t := SetStatus(s, id, status);
    assert forall x :: Proven(c, t, x) == Proven(c, s, x);
  }

  lemma {:induction false} AttemptKeepsInv(c: Config, s: State, id: nat, attempts: int, next: Option<int>)
    requires Inv(c, s)
    ensures Inv(c, s.(rows := WithAttempt(s.rows, id, attempts, next)))
  {
    var t := s.(rows := WithAttempt(s.rows, id, attempts, next));
    assert forall x :: Proven(c, t, x) == Proven(c, s, x);
  }

  lemma {:induction false} UpdateKeepsInv(c: Config, s: State, id: nat, status: Status, w: Writes, now: int)
    requires Inv(c, s) && (status == Verified ==> Proven(c, s, id))
    ensures Inv(c, s.(rows := AfterUpdate(c, s.rows, id, status, w, now)))
  {
    hide Inv;
    var t := if w.status then SetStatus(s, id, status) else s;
    StatusKeepsInv(c, s, id, status);
    if UpdateSucceeds(s.rows, id, w) {
      var n := s.rows[id].attempts + 1;
      AttemptKeepsInv(c, t, id, n, NextAttempt(c, status, n, now));
    }
  }

  /** The stored domains, with the history the laws speak about. */
  class ValidationUseCase {
    const config: Config
    var rows: map<nat, Row>
    ghost var tokens: map<nat, string>
    ghost var log: seq<Check>
    ghost var stored: seq<nat>

    ghost function View(): State
      reads this
    {
      State(rows, map[], tokens, log, stored)
    }

    ghost predicate Valid()
      reads this
    {
      Inv(config, View())
    }

    constructor (config: Config)
      ensures Valid() && this.config == config && rows == map[]
    {
      this.config := config;
      rows := map[];
      tokens, log, stored := map[], [], [];
    }

    /** The status is written first; the call may still fail on the re-read or the attempt write. */
    method UpdateValidationStatus(id: nat, status: Status, w: Writes, now: int) returns (ok: bool)
      requires Valid() && (status == Verified ==> Proven(config, View(), id))
      modifies this`rows
      ensures Valid() && rows.Keys == old(rows).Keys
      ensures ok <==> UpdateSucceeds(old(rows), id, w)
      ensures rows == AfterUpdate(config, old(rows), id, status, w, now)
      ensures id in rows ==> rows[id].status == if w.status then status else old(rows)[id].status
      ensures id in rows ==> rows[id].attempts == old(rows)[id].attempts + if ok then 1 else 0
      ensures id in rows ==> rows[id].name == old(rows)[id].name && rows[id].token == old(rows)[id].token
      ensures ok ==> rows[id].nextAttempt
                     == if status == Failed && rows[id].attempts < config.maxRetries
                        then Some(now + CalculateRetryDelay(rows[id].attempts, config.retryDelay)) else None
      ensures !ok && id in rows ==> rows[id].nextAttempt == old(rows)[id].nextAttempt
      ensures forall other :: other in rows && other != id ==> rows[other] == old(rows)[other]
    {
      hide Inv, Proven;
      UpdateKeepsInv(config, View(), id, status, w, now);
      if !w.status {
        return false;
      }
      rows := WithStatus(rows, id, status);
      if !w.reread || id !in rows {
        return false;
      }
      var attempts := rows[id].attempts + 1;
      var next := NextAttempt(config, status, attempts, now);
      if !w.attempt {
        return false;
      }
      rows := WithAttempt(rows, id, attempts, next);
      ok := true;
    }

    /** The DNS checks of a stored domain, with the answers DNS happened to give. */
    method RunChecks(id: nat, mx: Lookup, txt: Lookup) returns (overall: bool)
      requires Valid() && id in rows
      modifies this`log
      ensures Valid() && log == old(log) + [Check(id, rows[id].token, mx, txt)]
      ensures overall <==> FoundAll(config, Check(id, rows[id].token, mx, txt), id, rows[id].token)
      ensures overall ==> Proven(config, View(), id)
    {
      ghost var k := Check(id, rows[id].token, mx, txt);
      var mxValid, _, _ := ValidateMXRecords(config, mx);
      var txtValid := ValidateTXTRecord(config, txt, rows[id].token);
      overall := mxValid && txtValid;
      FoundAllIff(config, k);
      assert overall <==> Passes(config, k);
      hide FoundAll, Passes, MxValid, TxtValid, Inv;
      ChecksKeepInv(config, View(), id, mx, txt);
      log := log + [k];
    }

    /** `ValidateDomain`. The first mark and the final write may each fail at any point; the status a
        call leaves behind is the last one written. */
    method ValidateDomain(
      id: nat, readOk: bool, mx: Lookup, txt: Lookup, mark: Writes, recordOk: bool, final: Writes, now: int)
      returns (r: ValidationResult)
      requires Valid()
      modifies this`rows, this`log
      ensures Valid() && rows.Keys == old(rows).Keys
      ensures r.NotFound? <==> !readOk || id !in old(rows)
      ensures r.NoToken? <==> readOk && id in old(rows) && old(rows)[id].token == ""
      ensures r.NotFound? || r.NoToken? ==> rows == old(rows) && log == old(log)
      ensures r.RecordNotCreated? <==> readOk && id in old(rows) && old(rows)[id].token != "" && !recordOk
      ensures r.RecordNotCreated? ==> log == old(log)
      ensures r.RecordNotCreated? ==>
                rows[id].status == if mark.status then Validating else old(rows)[id].status
      ensures r.Completed? ==> (r.overall <==> FoundAll(config, Check(id, old(rows)[id].token, mx, txt), id, old(rows)[id].token))
      ensures r.Completed? ==>
                rows[id].status == if final.status then (if r.overall then Verified else Failed)
                                   else if mark.status then Validating else old(rows)[id].status
      ensures !r.StatusNotReset?
      ensures forall other :: other in rows && other != id ==> rows[other] == old(rows)[other]
    {
      if !readOk || id !in rows {
        return NotFound;
      }
      if rows[id].token == "" {
        return NoToken;
      }
      var _ := UpdateValidationStatus(id, Validating, mark, now);
      if !recordOk {
        return RecordNotCreated;
      }
      var overall := RunChecks(id, mx, txt);
      var _ := UpdateValidationStatus(id, if overall then Verified else Failed, final, now);
      r := Completed(overall);
    }

    /** `RetryValidation`: an incomplete reset ends the call, with the status Pending if it was written. */
    method RetryValidation(id: nat, mx: Lookup, txt: Lookup, reset: Writes, readOk: bool, final: Writes, now: int)
      returns (r: ValidationResult)
      requires Valid()
      modifies this`rows, this`log
      ensures Valid() && rows.Keys == old(rows).Keys
      ensures r.StatusNotReset? <==> !UpdateSucceeds(old(rows), id, reset)
      ensures r.NotFound? <==> UpdateSucceeds(old(rows), id, reset) && !readOk
      ensures r.Completed? <==> UpdateSucceeds(old(rows), id, reset) && readOk
      ensures !r.Completed? ==> rows == AfterUpdate(config, old(rows), id, Pending, reset, now) && log == old(log)
      ensures !r.Completed? && id in rows ==> rows[id].status == if reset.status then Pending else old(rows)[id].status
      ensures r.Completed? ==> (r.overall <==> FoundAll(config, Check(id, old(rows)[id].token, mx, txt), id, old(rows)[id].token))
      ensures r.Completed? ==>
                rows[id].status == if !final.status then Pending else if r.overall then Verified else Failed
      ensures forall other :: other in rows && other != id ==> rows[other] == old(rows)[other]
    {
      var ok := UpdateValidationStatus(id, Pending, reset, now);
      if !ok {
        return StatusNotReset;
      }
      if !readOk {
        return NotFound;
      }
      var overall := RunChecks(id, mx, txt);
      var _ := UpdateValidationStatus(id, if overall then Verified else Failed, final, now);
      r := Completed(overall);
    }
  }
}
