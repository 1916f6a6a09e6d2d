/** The HTTP client's retry loop: `SendWebhook` with the network and the context as oracles. */
module HttpClient {

  /** What one attempt yields; a network error has status 0. */
  datatype Response = Response(statusCode: int, success: bool)

  datatype Outcome =
    | Refused                    // URL or payload rejected before any request
    | NilResponse                // no attempt was made: the code dereferences a nil response here
    | Delivered(last: Response)
    | Cancelled(last: Response)  // context done while waiting for the next attempt
    | GaveUp(last: Response)

  predicate RetryableStatus(statusCode: int) {
    statusCode in {0, 408, 429, 500, 502, 503, 504}
  }

  predicate ShouldRetry(maxRetries: int, statusCode: int, attempt: int) {
    attempt < maxRetries && RetryableStatus(statusCode)
  }

  /** `server(i)` answers attempt i and `done(i)` says whether the context ends in the wait after it.
      The attempts made are exactly those up to the first at which the loop stops. */
  method SendWebhook(maxRetries: int, wellFormed: bool, server: nat -> Response, done: nat -> bool)
    returns (outcome: Outcome, requests: nat)
    ensures outcome.Refused? <==> !wellFormed
    ensures outcome.NilResponse? <==> wellFormed && maxRetries < 1
    ensures requests == 0 <==> outcome.Refused? || outcome.NilResponse?
    ensures requests <= if maxRetries < 0 then 0 else maxRetries
    ensures forall i :: 1 <= i < requests ==>
              !server(i).success && server(i).statusCode in {0, 408, 429, 500, 502, 503, 504} && !done(i)
    ensures requests > 0 && outcome.GaveUp? ==>
              requests == maxRetries || server(requests).statusCode !in {0, 408, 429, 500, 502, 503, 504}
    ensures requests > 0 ==> outcome.last == server(requests)
    ensures requests > 0 ==> (outcome.Delivered? <==> server(requests).success)
    ensures requests > 0 ==>
              (outcome.Cancelled? <==>
                 !server(requests).success && requests < maxRetries
                 && server(requests).statusCode in {0, 408, 429, 500, 502, 503, 504})
    ensures outcome.Cancelled? ==> done(requests)
  {
    requests := 0;
    if !wellFormed {
      return Refused, 0;
    }
    var lastResponse := Response(0, false);
    var attempt := 1;
    while attempt <= maxRetries
      invariant attempt == requests + 1
      invariant requests <= if maxRetries < 0 then 0 else maxRetries
      invariant requests > 0 ==> lastResponse == server(requests) && requests < maxRetries
      invariant forall i :: 1 <= i <= requests ==>
                  !server(i).success && server(i).statusCode in {0, 408, 429, 500, 502, 503, 504} && !done(i)
    {
      lastResponse := server(attempt);
      requests := requests + 1;
      if lastResponse.success || !ShouldRetry(maxRetries, lastResponse.statusCode, attempt) {
        break;
      }
      if done(attempt) {
        return Cancelled(lastResponse), requests;
      }
      attempt := attempt + 1;
    }
    if requests == 0 {
      return NilResponse, 0;
    }
    outcome := if lastResponse.success then Delivered(lastResponse) else GaveUp(lastResponse);
  }
}
