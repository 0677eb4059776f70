/** `fetchWithRetry` (api/debug.js:5-16): up to `retries` attempts at one
    request, a fixed pause after every failed attempt but the last, and the
    last attempt's error rethrown unchanged. */
module Retry {
  import opened Common

  /** What one attempt yields: a parsed JSON body, a response whose status is
      not ok, or a thrown error (network failure or unparsable body) with its message. */
  datatype Attempt<+B> = Ok(body: B) | HttpErr(status: nat) | Throw(msg: string)

  /** The transport answers attempt number `i` (counted from 0) of a request. */
  type Transport<B> = nat -> Attempt<B>

  /** How a call settles: it resolves to a body, rejects with an error message,
      or (when it is allowed no attempt at all) resolves to `undefined`. */
  datatype Fetched<+B> = Returned(body: B) | Thrown(error: string) | Undefined

  /** The course of one call: how it settled, how many requests it issued and
      how many 500 ms pauses it took. */
  datatype Run<+B> = Run(result: Fetched<B>, attempts: nat, sleeps: nat)

  /** The message of the error a failed attempt raises; a response that is
      not ok raises `HTTP <status>`. */
  function AttemptError<B>(a: Attempt<B>): string
    requires !a.Ok?
  {
    if a.HttpErr? then "HTTP " + Decimal(a.status) else a.msg
  }

  /** The default of `fetchWithRetry`'s `retries` parameter; every caller uses it. */
  const DefaultRetries: int := 2

  /** The call from attempt `i` on. */
  function RunFrom<B>(t: Transport<B>, retries: int, i: nat): Run<B>
    requires i < retries
    decreases retries - i
  {
    if t(i).Ok? then Run(Returned(t(i).body), i + 1, i)
    else if i == retries - 1 then Run(Thrown(AttemptError(t(i))), i + 1, i)
    else RunFrom(t, retries, i + 1)
  }

  /** The whole call `fetchWithRetry(url, retries)`. */
  function Retried<B>(t: Transport<B>, retries: int): Run<B> {
    if retries <= 0 then Run(Undefined, 0, 0) else RunFrom(t, retries, 0)
  }

  /** The retry loop. The attempt and pause counters are ghost: they record
      what the loop does to the network and the clock. */
  method FetchWithRetry<B>(t: Transport<B>, retries: int)
    returns (r: Fetched<B>, ghost attempts: nat, ghost sleeps: nat)
    ensures r == Retried(t, retries).result
    ensures attempts == Retried(t, retries).attempts && sleeps == Retried(t, retries).sleeps
  {
    attempts, sleeps := 0, 0;
    var i := 0;
    while i < retries
      invariant 0 <= i
      invariant retries <= 0 ==> i == 0
      invariant retries >= 1 ==> i < retries && Retried(t, retries) == RunFrom(t, retries, i)
      invariant attempts == i && sleeps == i
      decreases retries - i
    {
      var response := t(i);
      attempts := attempts + 1;
      if response.Ok? {
        r := Returned(response.body);
        return;
      }
      if i == retries - 1 {
        r := Thrown(AttemptError(response));
        return;
      }
      sleeps := sleeps + 1;
      i := i + 1;
    }
    r := Undefined;
  }

  lemma {:induction false} AllFailFrom<B>(t: Transport<B>, retries: int, i: nat)
    requires i < retries
    requires forall j :: i <= j < retries ==> !t(j).Ok?
    ensures RunFrom(t, retries, i) == Run(Thrown(AttemptError(t(retries - 1))), retries, retries - 1)
    decreases retries - i
  {
    if i < retries - 1 {
      AllFailFrom(t, retries, i + 1);
    }
  }

  /** When every attempt fails, the call issues exactly `retries` requests,
      pauses `retries - 1` times and rethrows the last attempt's error. */
  lemma AllAttemptsFail<B>(t: Transport<B>, retries: int)
    requires retries >= 1
    requires forall j :: 0 <= j < retries ==> !t(j).Ok?
    ensures Retried(t, retries) == Run(Thrown(AttemptError(t(retries - 1))), retries, retries - 1)
  {
    AllFailFrom(t, retries, 0);
  }

  lemma {:induction false} FirstSuccessFrom<B>(t: Transport<B>, retries: int, i: nat, k: nat)
    requires i <= k < retries
    requires t(k).Ok?
    requires forall j :: i <= j < k ==> !t(j).Ok?
    ensures RunFrom(t, retries, i) == Run(Returned(t(k).body), k + 1, k)
    decreases k - i
  {
    if i < k {
      FirstSuccessFrom(t, retries, i + 1, k);
    }
  }

  /** When attempt `k` is the first to succeed, the call resolves to its body
      after `k + 1` requests and `k` pauses; nothing is attempted afterwards. */
  lemma FirstSuccessAt<B>(t: Transport<B>, retries: int, k: nat)
    requires k < retries
    requires t(k).Ok?
    requires forall j :: 0 <= j < k ==> !t(j).Ok?
    ensures Retried(t, retries) == Run(Returned(t(k).body), k + 1, k)
  {
    FirstSuccessFrom(t, retries, 0, k);
  }

  lemma {:induction false} RunFromBounds<B>(t: Transport<B>, retries: int, i: nat)
    requires i < retries
    ensures var run := RunFrom(t, retries, i);
      !run.result.Undefined? && i < run.attempts <= retries && run.sleeps == run.attempts - 1 &&
      (run.result.Thrown? ==> run.attempts == retries)
    decreases retries - i
  {
    if !t(i).Ok? && i < retries - 1 {
      RunFromBounds(t, retries, i + 1);
    }
  }

  /** With at least one attempt allowed the call always settles with a body or
      an error, issues between 1 and `retries` requests, pauses once fewer than
      it issues requests, and rejects only once the budget is spent. */
  lemma RetryBounds<B>(t: Transport<B>, retries: int)
    requires retries >= 1
    ensures var run := Retried(t, retries);
      !run.result.Undefined? && 1 <= run.attempts <= retries && run.sleeps == run.attempts - 1 &&
      (run.result.Thrown? ==> run.attempts == retries)
  {
    RunFromBounds(t, retries, 0);
  }
}
