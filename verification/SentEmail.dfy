/** Sending and resending one email through its stored row: the row's retry bookkeeping, and what it
    guarantees about the sends that really happened. */
module SentEmail {
  import opened Basics
  import opened Sums
  import opened Backoff

  datatype Status = Pending | Queued | Sending | Sent | Delivered | Bounced | Failed | Cancelled

  /** `domainId` 0 is the nil identifier. */
  datatype Request = Request(
    domainId: nat, from: string, to: seq<string>, subject: string,
    textBody: Option<string>, htmlBody: Option<string>, messageId: string, maxRetries: int)

  datatype Row = Row(
    request: Request, status: Status, retryCount: nat, lastError: Option<string>,
    sentAt: Option<int>, failedAt: Option<int>, nextRetryAt: Option<int>,
    smtpMessageId: Option<string>, smtpResponse: Option<string>, lastProviderError: Option<string>)

  /** What the mail transport answered. */
  datatype Answer = Accepted(messageId: string) | Rejected(error: string)

  predicate ValidRequest(r: Request) {
    && r.domainId != 0 && r.from != "" && r.to != [] && r.subject != ""
    && (r.textBody.Some? || r.htmlBody.Some?) && r.messageId != "" && r.maxRetries >= 0
  }

  function NewRow(r: Request): Row { Row(r, Pending, 0, None, None, None, None, None, None, None) }

  predicate CanRetry(row: Row) { row.status == Failed && row.retryCount < row.request.maxRetries }

  /** The rows `GetSentEmailsForRetry` selects. */
  predicate Due(row: Row, now: int) { CanRetry(row) && row.nextRetryAt.Some? && row.nextRetryAt.value <= now }

  function AfterSent(row: Row, messageId: string, response: string, now: int): Row {
    row.(status := Sent, sentAt := Some(now), smtpMessageId := Some(messageId), smtpResponse := Some(response),
         lastError := None, lastProviderError := None)
  }

  /** A row that may not be retried keeps whatever retry time it had. */
  function AfterFailed(row: Row, error: string, now: int): Row {
    var r := row.(status := Failed, lastError := Some(error), failedAt := Some(now), retryCount := row.retryCount + 1);
    if CanRetry(r) then r.(nextRetryAt := Some(now + SentEmailDelay(r.retryCount))) else r
  }

  function AfterAttempt(row: Row, answer: Answer, now: int): Row {
    match answer
    case Accepted(id) => AfterSent(row, if id == "" then row.request.messageId else id, "", now)
    case Rejected(error) => AfterFailed(row, error, now)
  }

  /** One send that happened; `stored` says whether the row update after it went through. */
  datatype Attempt = Attempt(id: nat, ok: bool, stored: bool)

  /** `log` is history. Row identifiers are issued in order and never reused. */
  datatype State = State(rows: map<nat, Row>, issued: nat, log: seq<Attempt>)

  datatype Op =
    | Send(request: Request, created: bool, answer: Answer, stored: bool, now: int)
    | Resend(id: nat, readOk: bool, answer: Answer, stored: bool, now: int)

  const INIT := State(map[], 0, [])

  /** Does this call reach the mail transport? */
  predicate Sends(s: State, op: Op) {
    match op
    case Send(request, created, _, _, _) => ValidRequest(request) && created
    case Resend(id, readOk, _, _, _) => readOk && id in s.rows && CanRetry(s.rows[id])
  }

  function IdOf(s: State, op: Op): nat { if op.Send? then s.issued else op.id }

  function RowBefore(s: State, op: Op): Row
    requires Sends(s, op)
  {
    if op.Send? then NewRow(op.request) else s.rows[op.id]
  }

  function Next(s: State, op: Op): State {
    if !Sends(s, op) then s
    else
      var id, before := IdOf(s, op), RowBefore(s, op);
      var after := AfterAttempt(before.(status := Pending), op.answer, op.now);
      State(s.rows[id := if op.stored then after else before],
            if op.Send? then s.issued + 1 else s.issued,
            s.log + [Attempt(id, op.answer.Accepted?, op.stored)])
  }

  function Run(s: State, ops: seq<Op>): State {
    if ops == [] then s else Next(Run(s, ops[..|ops| - 1]), ops[|ops| - 1])
  }

  lemma {:induction false} RunOne(s: State, ops: seq<Op>, op: Op)
    ensures Run(s, ops + [op]) == Next(Run(s, ops), op)
  {
    assert (ops + [op])[..|ops|] == ops;
  }

  // ---------- The objects ----------

  /** The entity that one call works on. */
  class Email {
    const request: Request
    var status: Status
    var retryCount: nat
    var lastError: Option<string>
    var sentAt: Option<int>
    var failedAt: Option<int>
    var nextRetryAt: Option<int>
    var smtpMessageId: Option<string>
    var smtpResponse: Option<string>
    var lastProviderError: Option<string>

    function View(): Row
      reads this
    {
      Row(request, status, retryCount, lastError, sentAt, failedAt, nextRetryAt,
          smtpMessageId, smtpResponse, lastProviderError)
    }

    constructor (row: Row)
      ensures View() == row
    {
      request, status, retryCount, lastError := row.request, row.status, row.retryCount, row.lastError;
      sentAt, failedAt, nextRetryAt := row.sentAt, row.failedAt, row.nextRetryAt;
      smtpMessageId, smtpResponse := row.smtpMessageId, row.smtpResponse;
      lastProviderError := row.lastProviderError;
    }

    method MarkAsSent(messageId: string, response: string, now: int)
      modifies this
      ensures View() == AfterSent(old(View()), messageId, response, now)
    {
      status, sentAt := Sent, Some(now);
      smtpMessageId, smtpResponse := Some(messageId), Some(response);
      lastError, lastProviderError := None, None;
    }

    method MarkAsFailed(error: string, now: int)
      modifies this
      ensures View() == AfterFailed(old(View()), error, now)
    {
      status, lastError, failedAt := Failed, Some(error), Some(now);
      retryCount := retryCount + 1;
      if CanRetry(View()) {
        var at := CalculateNextRetryTime(now);
        nextRetryAt := Some(at);
      }
    }

    /** Exact for up to fifteen failures; beyond that the 64-bit product has wrapped. */
    method CalculateNextRetryTime(now: int) returns (at: int)
      ensures at == now + SentEmailDelay(retryCount)
      ensures at == now + Pow(3, retryCount) * FIVE_MINUTES <==> retryCount <= 15
    {
      var delay := 1;
      for i := 0 to retryCount
        invariant delay == Tripled(i)
      {
        delay := Wrap64(delay * 3);
      }
      SentEmailDelayExact(retryCount);
      at := now + Wrap64(delay * FIVE_MINUTES);
    }
  }

  datatype Result = Invalid | NotCreated | NotFound | NotRetryable | SendFailed | SentAs(id: nat)

  class UseCase {
    var rows: map<nat, Row>
    var issued: nat
    ghost var log: seq<Attempt>

    ghost function View(): State
      reads this
    {
      State(rows, issued, log)
    }

    constructor ()
      ensures View() == INIT
    {
      rows, issued, log := map[], 0, [];
    }

    /** The common tail: ask the transport, mark the entity, write it back. */
    method Dispatch(id: nat, email: Email, answer: Answer, stored: bool, now: int) returns (r: Result)
      requires id in rows
      modifies this`rows, this`log, email
      ensures rows == if stored then old(rows)[id := AfterAttempt(old(email.View()), answer, now)] else old(rows)
      ensures log == old(log) + [Attempt(id, answer.Accepted?, stored)]
      ensures r == if answer.Accepted? then SentAs(id) else SendFailed
    {
      log := log + [Attempt(id, answer.Accepted?, stored)];
      match answer {
        case Rejected(error) =>
          email.MarkAsFailed(error, now);
          r := SendFailed;
        case Accepted(messageId) =>
          email.MarkAsSent(if messageId == "" then email.request.messageId else messageId, "", now);
          r := SentAs(id);
      }
      if stored {
        rows := rows[id := email.View()];
      }
    }

    method SendEmail(request: Request, created: bool, answer: Answer, stored: bool, now: int) returns (r: Result)
      modifies this
      ensures View() == Next(old(View()), Send(request, created, answer, stored, now))
      ensures r == if request.domainId == 0 || request.from == "" || request.to == [] || request.subject == ""
                      || (request.textBody == None && request.htmlBody == None) || request.messageId == ""
                      || request.maxRetries < 0
                   then Invalid
                   else if !created then NotCreated
                   else if answer.Rejected? then SendFailed
                   else SentAs(old(issued))
      ensures log == old(log) + if r.SentAs? || r.SendFailed? then [Attempt(old(issued), answer.Accepted?, stored)] else []
      ensures r.SentAs? && stored ==>
                rows[old(issued)] == Row(request, Sent, 0, None, Some(now), None, None,
                                         Some(if answer.messageId == "" then request.messageId else answer.messageId),
                                         Some(""), None)
      ensures r.SendFailed? && stored ==>
                rows[old(issued)] == Row(request, Failed, 1, Some(answer.error), None, Some(now),
                                         if request.maxRetries > 1 then Some(now + 900_000_000_000) else None,
                                         None, None, None)
    {
      SentEmailDelayValues(1);
      if !ValidRequest(request) {
        return Invalid;
      }
      var email := new Email(NewRow(request));
      if !created {
        return NotCreated;
      }
      var id := issued;
      rows, issued := rows[id := email.View()], issued + 1;
      r := Dispatch(id, email, answer, stored, now);
    }

    method ResendEmail(id: nat, readOk: bool, answer: Answer, stored: bool, now: int) returns (r: Result)
      modifies this
      ensures View() == Next(old(View()), Resend(id, readOk, answer, stored, now))
      ensures r == if !readOk || id !in old(rows) then NotFound
                   else if old(rows)[id].status != Failed || old(rows)[id].retryCount >= old(rows)[id].request.maxRetries
                   then NotRetryable
                   else if answer.Rejected? then SendFailed
                   else SentAs(id)
      ensures log == old(log) + if r.SentAs? || r.SendFailed? then [Attempt(id, answer.Accepted?, stored)] else []
      ensures r.SentAs? && stored ==> rows[id].status == Sent && rows[id].sentAt == Some(now)
                                      && rows[id].retryCount == old(rows)[id].retryCount
      ensures r.SendFailed? && stored ==>
                rows[id].status == Failed && rows[id].failedAt == Some(now)
                && rows[id].retryCount == old(rows)[id].retryCount + 1
    {
      if !readOk || id !in rows {
        return NotFound;
      }
      var email := new Email(rows[id]);
      if !CanRetry(email.View()) {
        return NotRetryable;
      }
      email.status := Pending;
      r := Dispatch(id, email, answer, stored, now);
    }

    /** One pass over the rows the database selected. Each email is read again before it is sent: those
        whose read succeeds are sent once, in order; the others are passed over. */
    method ProcessRetryQueue(ids: seq<nat>, found: seq<bool>, answers: seq<Answer>, stored: seq<bool>, now: int)
      requires |found| == |ids| && |answers| == |ids| && |stored| == |ids|
      requires Selected(View(), ids, now)
      modifies this
      ensures View() == Run(old(View()), Resends(ids, found, answers, stored, now, |ids|))
      ensures log == old(log) + Attempts(ids, found, answers, stored, |ids|)
      ensures rows.Keys == old(rows).Keys
      ensures forall id :: id in rows && !Among(id, ids, |ids|) ==> rows[id] == old(rows)[id]
    {
      for k := 0 to |ids|
        invariant View() == Run(old(View()), Resends(ids, found, answers, stored, now, k))
      {
        RunOne(old(View()), Resends(ids, found, answers, stored, now, k), Resend(ids[k], found[k], answers[k], stored[k], now));
        var _ := ResendEmail(ids[k], found[k], answers[k], stored[k], now);
      }
      RetryPass(old(View()), ids, found, answers, stored, now, |ids|);
    }
  }

  /** The first k calls of a retry pass. */
  function Resends(ids: seq<nat>, found: seq<bool>, answers: seq<Answer>, stored: seq<bool>, now: int, k: nat): seq<Op>
    requires |found| == |ids| && |answers| == |ids| && |stored| == |ids| && k <= |ids|
  {
    if k == 0 then []
    else Resends(ids, found, answers, stored, now, k - 1) + [Resend(ids[k - 1], found[k - 1], answers[k - 1], stored[k - 1], now)]
  }

  /** The sends those calls are to make: one for each email that can be read. */
  function Attempts(ids: seq<nat>, found: seq<bool>, answers: seq<Answer>, stored: seq<bool>, k: nat): seq<Attempt>
    requires |found| == |ids| && |answers| == |ids| && |stored| == |ids| && k <= |ids|
  {
    if k == 0 then []
    else
      Attempts(ids, found, answers, stored, k - 1)
      + if found[k - 1] then [Attempt(ids[k - 1], answers[k - 1].Accepted?, stored[k - 1])] else []
  }

  lemma {:induction false} ResendTouchesOneRow(s: State, op: Op)
    requires op.Resend? && op.id in s.rows && CanRetry(s.rows[op.id])
    ensures var t := Next(s, op);
            && t.log == s.log + (if op.readOk then [Attempt(op.id, op.answer.Accepted?, op.stored)] else [])
            && t.rows.Keys == s.rows.Keys
            && (forall id :: id in s.rows && id != op.id ==> t.rows[id] == s.rows[id])
  {
  }

  predicate Among(id: nat, ids: seq<nat>, k: nat)
    requires k <= |ids|
  {
    exists i :: 0 <= i < k && ids[i] == id
  }

  predicate Selected(s: State, ids: seq<nat>, now: int) {
    && (forall i :: 0 <= i < |ids| ==> ids[i] in s.rows && Due(s.rows[ids[i]], now))
    && (forall i, j :: 0 <= i < j < |ids| ==> ids[i] != ids[j])
  }

  /** One or two selected emails: due by the clock, and not the same one twice. */
  lemma {:induction false} SelectedIff(s: State, a: nat, b: nat, now: int)
    ensures Selected(s, [], now)
    ensures Selected(s, [a], now) <==> a in s.rows && Due(s.rows[a], now)
    ensures Selected(s, [a, b], now) <==> a != b && a in s.rows && b in s.rows && Due(s.rows[a], now) && Due(s.rows[b], now)
  {
    var one, two := [a], [a, b];
    assert one[0] == a && two[0] == a && two[1] == b;
  }

  /** Resending one email changes no other row, so each selected email is still due when its turn comes. */
  lemma {:induction false} RetryPass(
    s: State, ids: seq<nat>, found: seq<bool>, answers: seq<Answer>, stored: seq<bool>, now: int, k: nat)
    requires |found| == |ids| && |answers| == |ids| && |stored| == |ids| && k <= |ids| && Selected(s, ids, now)
    ensures var t := Run(s, Resends(ids, found, answers, stored, now, k));
            && t.log == s.log + Attempts(ids, found, answers, stored, k)
            && t.rows.Keys == s.rows.Keys
            && (forall id :: id in s.rows && !Among(id, ids, k) ==> t.rows[id] == s.rows[id])
  {
    if k > 0 {
      hide Run, Next, Among, Selected;
      var ops := Resends(ids, found, answers, stored, now, k - 1);
      var t, op := Run(s, ops), Resend(ids[k - 1], found[k - 1], answers[k - 1], stored[k - 1], now);
      RetryPass(s, ids, found, answers, stored, now, k - 1);
      RunOne(s, ops, op);
      NextSelected(s, ids, now, k);
      ResendTouchesOneRow(t, op);
    }
  }

  lemma {:induction false} NextSelected(s: State, ids: seq<nat>, now: int, k: nat)
    requires 0 < k <= |ids| && Selected(s, ids, now)
    ensures ids[k - 1] in s.rows && CanRetry(s.rows[ids[k - 1]]) && !Among(ids[k - 1], ids, k - 1)
    ensures forall id :: Among(id, ids, k) <==> Among(id, ids, k - 1) || id == ids[k - 1]
  {
  }

  // ---------- What the row says about the sends ----------

  function Count(b: bool): int { if b then 1 else 0 }

  function OfEmail(id: nat): Attempt -> int { (a: Attempt) => Count(a.id == id) }
  function KnownFailure(id: nat): Attempt -> int { (a: Attempt) => Count(a.id == id && a.stored && !a.ok) }
  function KnownSuccess(id: nat): Attempt -> int { (a: Attempt) => Count(a.id == id && a.stored && a.ok) }
  function Unrecorded(id: nat): Attempt -> int { (a: Attempt) => Count(a.id == id && !a.stored) }

  function SendCount(s: State, id: nat): int { Sum(OfEmail(id), s.log) }
  function FailureCount(s: State, id: nat): int { Sum(KnownFailure(id), s.log) }
  function SuccessCount(s: State, id: nat): int { Sum(KnownSuccess(id), s.log) }
  function LostCount(s: State, id: nat): int { Sum(Unrecorded(id), s.log) }

  function Limit(r: Request): int { if r.maxRetries >= 1 then r.maxRetries else 1 }

  predicate NoKnownSuccess(log: seq<Attempt>, id: nat) {
    forall i :: 0 <= i < |log| && log[i].id == id ==> !(log[i].ok && log[i].stored)
  }

  /** What a stored row reveals about the past of its email. */
  predicate RowTells(s: State, id: nat)
    requires id in s.rows
  {
    var row := s.rows[id];
    && row.retryCount == FailureCount(s, id)
    && SendCount(s, id) == FailureCount(s, id) + SuccessCount(s, id) + LostCount(s, id)
    && match row.status
       case Pending => FailureCount(s, id) == SuccessCount(s, id) == 0 && LostCount(s, id) == 1
       case Sent => SuccessCount(s, id) == 1 && row.retryCount < Limit(row.request)
       case Failed =>
         && NoKnownSuccess(s.log, id) && SuccessCount(s, id) == 0 && 1 <= row.retryCount <= Limit(row.request)
         && row.failedAt.Some?
         && (CanRetry(row) ==> row.nextRetryAt == Some(row.failedAt.value + SentEmailDelay(row.retryCount)))
       case _ => false
  }

  predicate Unused(s: State, id: nat) { forall i :: 0 <= i < |s.log| ==> s.log[i].id != id }

  predicate NothingAfterKnownSuccess(log: seq<Attempt>) {
    forall i, j :: 0 <= i < j < |log| && log[i].id == log[j].id ==> !(log[i].ok && log[i].stored)
  }

  ghost predicate Inv(s: State) {
    && (forall id: nat :: id in s.rows <==> id < s.issued)
    && (forall id: nat :: id in s.rows ==> RowTells(s, id))
    && (forall id: nat :: id >= s.issued ==> Unused(s, id))
    && NothingAfterKnownSuccess(s.log)
  }

  lemma {:induction false} CountsStep(s: State, op: Op, id: nat)
    requires Sends(s, op)
    ensures var a := Attempt(IdOf(s, op), op.answer.Accepted?, op.stored); var t := Next(s, op);
            && SendCount(t, id) == SendCount(s, id) + OfEmail(id)(a)
            && FailureCount(t, id) == FailureCount(s, id) + KnownFailure(id)(a)
            && SuccessCount(t, id) == SuccessCount(s, id) + KnownSuccess(id)(a)
            && LostCount(t, id) == LostCount(s, id) + Unrecorded(id)(a)
  {
    var a := Attempt(IdOf(s, op), op.answer.Accepted?, op.stored);
    SumAppend(OfEmail(id), s.log, a);
    SumAppend(KnownFailure(id), s.log, a);
    SumAppend(KnownSuccess(id), s.log, a);
    SumAppend(Unrecorded(id), s.log, a);
  }

  lemma {:induction false} UnusedCounts(s: State, id: nat)
    requires Unused(s, id)
    ensures SendCount(s, id) == FailureCount(s, id) == SuccessCount(s, id) == LostCount(s, id) == 0
  {
    SumZero(OfEmail(id), s.log);
    SumZero(KnownFailure(id), s.log);
    SumZero(KnownSuccess(id), s.log);
    SumZero(Unrecorded(id), s.log);
  }

  lemma {:induction false} OtherRowStep(s: State, op: Op, id: nat)
    requires Sends(s, op) && id in s.rows && RowTells(s, id) && id != IdOf(s, op)
    ensures RowTells(Next(s, op), id)
  {
    CountsStep(s, op, id);
  }

  lemma {:induction false} NewRowStep(s: State, op: Op)
    requires Sends(s, op) && op.Send? && Unused(s, s.issued)
    ensures RowTells(Next(s, op), s.issued)
  {
    CountsStep(s, op, s.issued);
    UnusedCounts(s, s.issued);
  }

  lemma {:induction false} ResentRowStep(s: State, op: Op)
    requires Sends(s, op) && op.Resend? && RowTells(s, op.id)
    ensures RowTells(Next(s, op), op.id)
  {
    CountsStep(s, op, op.id);
  }

  lemma {:induction false} RowStep(s: State, op: Op, id: nat)
    requires Inv(s) && Sends(s, op) && id in Next(s, op).rows
    ensures RowTells(Next(s, op), id)
  {
    hide RowTells, Unused;
    if id != IdOf(s, op) {
      OtherRowStep(s, op, id);
    } else if op.Send? {
      NewRowStep(s, op);
    } else {
      ResentRowStep(s, op);
    }
  }

  lemma {:induction false} NewestSend(s: State, op: Op)
    requires Inv(s) && Sends(s, op)
    ensures forall id: nat :: id >= Next(s, op).issued ==> Unused(Next(s, op), id)
    ensures NothingAfterKnownSuccess(Next(s, op).log)
  {
    var id, t := IdOf(s, op), Next(s, op);
    forall x: nat | x >= t.issued ensures Unused(t, x) {
      assert Unused(s, x);
    }
    if op.Send? {
      assert Unused(s, id);
    } else {
      assert RowTells(s, id);
    }
    assert NoKnownSuccess(s.log, id);
  }

  lemma {:induction false} InvStep(s: State, op: Op)
    requires Inv(s)
    ensures Inv(Next(s, op))
  {
    if Sends(s, op) {
      var t := Next(s, op);
      forall id: nat | id in t.rows ensures RowTells(t, id) {
        RowStep(s, op, id);
      }
      NewestSend(s, op);
    }
  }

  lemma {:induction false} InvRun(ops: seq<Op>)
    ensures Inv(Run(INIT, ops))
  {
    if ops != [] {
      InvRun(ops[..|ops| - 1]);
      InvStep(Run(INIT, ops[..|ops| - 1]), ops[|ops| - 1]);
    }
  }

  // ---------- The promises ----------

  /** Over every sequence of sends and resends, with any row updates lost: the retry count is the number
      of recorded failures, the sends exceed max(1, MaxRetries) by no more than the lost updates, and
      nothing is sent after a success whose update went through. */
  lemma {:induction false} SendsAreBounded(ops: seq<Op>, id: nat)
    requires id in Run(INIT, ops).rows
    ensures var s := Run(INIT, ops);
            && s.rows[id].retryCount == FailureCount(s, id)
            && 1 <= SendCount(s, id)
               <= (if s.rows[id].request.maxRetries >= 1 then s.rows[id].request.maxRetries else 1) + LostCount(s, id)
            && NothingAfterKnownSuccess(s.log)
  {
    InvRun(ops);
    SumNonNegative(Unrecorded(id), Run(INIT, ops).log);
  }

  function Failures(id: nat): Attempt -> int { (a: Attempt) => Count(a.id == id && !a.ok) }

  predicate AllStored(ops: seq<Op>) { forall i :: 0 <= i < |ops| ==> ops[i].stored }

  lemma {:induction false} StoredLog(ops: seq<Op>)
    requires AllStored(ops)
    ensures forall i :: 0 <= i < |Run(INIT, ops).log| ==> Run(INIT, ops).log[i].stored
  {
    if ops != [] {
      StoredLog(ops[..|ops| - 1]);
    }
  }

  /** With every row update stored: the retry count is the number of failed sends, an email is sent at
      most max(1, MaxRetries) times, and nothing is sent after a success. */
  lemma {:induction false} StoredSendsAreExact(ops: seq<Op>, id: nat)
    requires (forall i :: 0 <= i < |ops| ==> ops[i].stored) && id in Run(INIT, ops).rows
    ensures var s := Run(INIT, ops);
            && s.rows[id].retryCount == Sum(Failures(id), s.log)
            && SendCount(s, id) <= (if s.rows[id].request.maxRetries >= 1 then s.rows[id].request.maxRetries else 1)
            && (forall i, j :: 0 <= i < j < |s.log| && s.log[i].id == s.log[j].id ==> !s.log[i].ok)
  {
    var s := Run(INIT, ops);
    InvRun(ops);
    StoredLog(ops);
    SumZero(Unrecorded(id), s.log);
    SumEqual(Failures(id), KnownFailure(id), s.log);
  }

  /** An email that failed and may be retried is picked up by the retry queue, exactly from its
      back-off time on. */
  lemma {:induction false} RetryTimeIsSet(ops: seq<Op>, id: nat, now: int)
    requires id in Run(INIT, ops).rows && CanRetry(Run(INIT, ops).rows[id])
    ensures var row := Run(INIT, ops).rows[id];
            row.failedAt.Some? && (Due(row, now) <==> row.failedAt.value + SentEmailDelay(row.retryCount) <= now)
  {
    InvRun(ops);
  }

  /** Exactly when a successful resend can be followed by another send of the same email: when its row
      update was lost, for the row then still says Failed. */
  lemma {:induction false} ResentAfterSuccess(s: State, op: Op, again: Op)
    requires op.Resend? && op.answer.Accepted? && Sends(s, op)
    requires again.Resend? && again.id == op.id && again.readOk
    ensures Sends(Next(s, op), again) <==> !op.stored
    ensures !op.stored ==> Next(s, op).rows == s.rows
  {
    assert s.rows[op.id := s.rows[op.id]] == s.rows;
  }

  /** After a first send whose row update was lost the row stays Pending, and no resend ever goes out. */
  lemma {:induction false} LostFirstUpdateIsFinal(s: State, id: nat, ops: seq<Op>)
    requires id in s.rows && s.rows[id].status == Pending && id < s.issued
    ensures id in Run(s, ops).rows && Run(s, ops).rows[id] == s.rows[id] && id < Run(s, ops).issued
    ensures SendCount(Run(s, ops), id) == SendCount(s, id)
  {
    if ops != [] {
      var init, op := ops[..|ops| - 1], ops[|ops| - 1];
      LostFirstUpdateIsFinal(s, id, init);
      if Sends(Run(s, init), op) {
        CountsStep(Run(s, init), op, id);
      }
    }
  }
}
