/** `_get`: an HTTP GET with a bounded number of attempts.
    The network is an oracle: `net(i)` is what the `i`-th request of this call
    gets back, either a response with a status code or a `RequestException`
    raised by `requests.get` itself (connection error, timeout, ...).
    The sleeps between attempts are kept as the exponent `i` of `backoff ** i`. */
module Fetcher {
  import opened Options

  /** The default retry budget of `_get`; `backoff` (1.7) and `timeout` (30)
      are durations and are not modelled. */
  const DefaultRetry: int := 5

  /** Status of "429 Too Many Requests", section 4 of RFC 6585. */
  const TooManyRequests: int := 429

  /** What one request gets back. */
  datatype Attempt<R> = Reply(status: int, body: R) | Broken(message: string)

  /** The `RequestException`s `_get` catches: one from `requests.get`, or the
      `HTTPError` that `raise_for_status` raises for a 4xx or 5xx status. */
  datatype Exc = Network(message: string) | HttpStatus(status: int)

  /** How `_get` ends when it does not return a response:
      `AuthExit` is `SystemExit(1)` after a 401/403, `Raised(e)` is `raise err`
      with the last recorded exception, and `RaisedNone` is `raise err` while
      `err` is still `None` (a `TypeError` in Python). */
  datatype Fault = AuthExit(status: int) | Raised(exc: Exc) | RaisedNone

  datatype GetResult<R> = Return(body: R) | Failed(fault: Fault)

  /** A line appended to the error log. `attempt` is the 1-based `i+1` of `try i+1/retry`. */
  datatype LogLine = AuthError(status: int) | HttpError(attempt: nat, retry: int, exc: Exc)

  /** Everything one call of `_get` does: its outcome, how many requests it
      issued, what it logged, and the exponent of each sleep. */
  datatype Trace<R> = Trace(result: GetResult<R>, requests: nat, log: seq<LogLine>, sleeps: seq<nat>)

  predicate IsAuthFailure(status: int) { status == 401 || status == 403 }

  /** `raise_for_status` raises for client (4xx) and server (5xx) errors only. */
  predicate RaisesForStatus(status: int) { 400 <= status < 600 }

  /** How the body of the `try` block treats one attempt. */
  datatype Verdict<R> = Deliver(body: R) | Deny(status: int) | Throttle | Fail(exc: Exc)

  function Classify<R>(a: Attempt<R>): (v: Verdict<R>)
    ensures v.Deny? <==> a.Reply? && IsAuthFailure(a.status)
    ensures v.Throttle? <==> a.Reply? && a.status == TooManyRequests
    ensures v.Deliver? <==> a.Reply? && !IsAuthFailure(a.status) && !RaisesForStatus(a.status)
    ensures v.Fail? ==> v.exc == (if a.Broken? then Network(a.message) else HttpStatus(a.status))
  {
    match a
    case Broken(m) => Fail(Network(m))
    case Reply(s, b) =>
      if IsAuthFailure(s) then Deny(s)
      else if s == TooManyRequests then Throttle
      else if RaisesForStatus(s) then Fail(HttpStatus(s))
      else Deliver(b)
  }

  /** Whether `_get` goes on to the next attempt after this one. */
  predicate Retried<R>(a: Attempt<R>)
  {
    Classify(a).Throttle? || Classify(a).Fail?
  }

  /** The attempts `i`, ..., `retry - 1` onward, with `err` recorded so far. */
  function RunFrom<R>(net: nat -> Attempt<R>, retry: int, i: nat, err: Option<Exc>): Trace<R>
    decreases retry - i
  {
    if retry <= i then
      Trace(if err.Some? then Failed(Raised(err.value)) else Failed(RaisedNone), 0, [], [])
    else
      match Classify(net(i))
      case Deliver(b) => Trace(Return(b), 1, [], [])
      case Deny(s) => Trace(Failed(AuthExit(s)), 1, [AuthError(s)], [])
      case Throttle =>
        var t := RunFrom(net, retry, i + 1, err);
        Trace(t.result, t.requests + 1, t.log, [i] + t.sleeps)
      case Fail(e) =>
        var t := RunFrom(net, retry, i + 1, Some(e));
        Trace(t.result, t.requests + 1, [HttpError(i + 1, retry, e)] + t.log, [i] + t.sleeps)
  }

  /** A whole call of `_get(..., retry=retry)`. */
  function Run<R>(net: nat -> Attempt<R>, retry: int): Trace<R>
  {
    RunFrom(net, retry, 0, None)
  }

  /** `t` after `n` earlier requests that logged `log` and slept `sleeps`. */
  function After<R>(n: nat, log: seq<LogLine>, sleeps: seq<nat>, t: Trace<R>): Trace<R>
  {
    Trace(t.result, n + t.requests, log + t.log, sleeps + t.sleeps)
  }

  /** A retried attempt, seen from the loop: its log line and its sleep
      move from the rest of the run into what was done so far. */
  lemma {:induction false} AfterRetry<R>(net: nat -> Attempt<R>, retry: int, i: nat, err: Option<Exc>, log: seq<LogLine>, sleeps: seq<nat>)
    requires i < retry && Retried(net(i))
    ensures var v := Classify(net(i));
      After(i, log, sleeps, RunFrom(net, retry, i, err))
      == if v.Fail? then After(i + 1, log + [HttpError(i + 1, retry, v.exc)], sleeps + [i], RunFrom(net, retry, i + 1, Some(v.exc)))
         else After(i + 1, log, sleeps + [i], RunFrom(net, retry, i + 1, err))
  {
    var v := Classify(net(i));
    if v.Fail? {
      var t := RunFrom(net, retry, i + 1, Some(v.exc));
      assert log + ([HttpError(i + 1, retry, v.exc)] + t.log) == (log + [HttpError(i + 1, retry, v.exc)]) + t.log;
      assert sleeps + ([i] + t.sleeps) == (sleeps + [i]) + t.sleeps;
    } else {
      var t := RunFrom(net, retry, i + 1, err);
      assert sleeps + ([i] + t.sleeps) == (sleeps + [i]) + t.sleeps;
    }
  }

  /** The loop of `_get`. */
  method Get<R>(net: nat -> Attempt<R>, retry: int)
    returns (result: GetResult<R>, requests: nat, log: seq<LogLine>, sleeps: seq<nat>)
    ensures Trace(result, requests, log, sleeps) == Run(net, retry)
  {
    var err: Option<Exc> := None;
    requests, log, sleeps := 0, [], [];
    var i: nat := 0;
    while i < retry
      invariant requests == i
      invariant After(i, log, sleeps, RunFrom(net, retry, i, err)) == Run(net, retry)
      decreases retry - i
    {
      var a := net(i);
      requests := requests + 1;
      if a.Reply? && IsAuthFailure(a.status) {
        log := log + [AuthError(a.status)];
        result := Failed(AuthExit(a.status));
        return;
      }
      if a.Reply? && a.status == TooManyRequests {
        AfterRetry(net, retry, i, err, log, sleeps);
        sleeps := sleeps + [i];
      } else if a.Reply? && !RaisesForStatus(a.status) {
        result := Return(a.body);
        return;
      } else {
        AfterRetry(net, retry, i, err, log, sleeps);
        var e := if a.Broken? then Network(a.message) else HttpStatus(a.status);
        log := log + [HttpError(i + 1, retry, e)];
        err := Some(e);
        sleeps := sleeps + [i];
      }
      i := i + 1;
    }
    result := if err.Some? then Failed(Raised(err.value)) else Failed(RaisedNone);
  }

  // ---------------------------------------------------------------------
  // What `_get` promises, stated over `Run`.

  /** Every attempt in `lo .. hi - 1` led to another attempt. */
  ghost predicate AllRetried<R>(net: nat -> Attempt<R>, lo: nat, hi: int)
  {
    forall j: nat :: lo <= j < hi ==> Retried(net(j))
  }

  /** The exception of the last failing attempt among the first `n`, if any:
      the value `err` holds after `n` retried attempts. */
  function LastError<R>(net: nat -> Attempt<R>, n: nat): Option<Exc>
  {
    if n == 0 then None
    else if Classify(net(n - 1)).Fail? then Some(Classify(net(n - 1)).exc)
    else LastError(net, n - 1)
  }

  /** The log lines that attempt `j` produces. */
  function LogOf<R>(net: nat -> Attempt<R>, retry: int, j: nat): seq<LogLine>
  {
    match Classify(net(j))
    case Deny(s) => [AuthError(s)]
    case Fail(e) => [HttpError(j + 1, retry, e)]
    case _ => []
  }

  /** The log lines of attempts `lo .. hi - 1`, in order. */
  function Logs<R>(net: nat -> Attempt<R>, retry: int, lo: nat, hi: nat): seq<LogLine>
    decreases hi - lo
  {
    if hi <= lo then [] else LogOf(net, retry, lo) + Logs(net, retry, lo + 1, hi)
  }

  lemma {:induction false} RunFromDecisive<R>(net: nat -> Attempt<R>, retry: int, i: nat, err: Option<Exc>, k: nat)
    requires i <= k < retry && AllRetried(net, i, k) && !Retried(net(k))
    ensures RunFrom(net, retry, i, err).requests == k - i + 1
    ensures RunFrom(net, retry, i, err).result
         == match Classify(net(k))
            case Deliver(b) => Return(b)
            case Deny(s) => Failed(AuthExit(s))
            case _ => Failed(RaisedNone)
    decreases k - i
  {
    if i < k {
      assert Retried(net(i));
      var err' := if Classify(net(i)).Fail? then Some(Classify(net(i)).exc) else err;
      RunFromDecisive(net, retry, i + 1, err', k);
    }
  }

  /** `_get` returns the first response that is neither 401/403 nor 429 and
      passes `raise_for_status`, or exits at the first 401/403, having issued
      exactly the requests up to that one and no later request. */
  lemma {:induction false} GetStopsAtFirstDecisive<R>(net: nat -> Attempt<R>, retry: int, k: nat)
    requires k < retry && AllRetried(net, 0, k) && !Retried(net(k))
    ensures Run(net, retry).requests == k + 1
    ensures Classify(net(k)).Deliver? ==> Run(net, retry).result == Return(net(k).body)
    ensures Classify(net(k)).Deny? ==> Run(net, retry).result == Failed(AuthExit(net(k).status))
  {
    RunFromDecisive(net, retry, 0, None, k);
  }

  lemma {:induction false} RunFromExhausted<R>(net: nat -> Attempt<R>, retry: int, i: nat, err: Option<Exc>)
    requires i <= retry && AllRetried(net, i, retry) && err == LastError(net, i)
    ensures RunFrom(net, retry, i, err).requests == retry - i
    ensures RunFrom(net, retry, i, err).result
         == match LastError(net, retry)
            case Some(e) => Failed(Raised(e))
            case None => Failed(RaisedNone)
    decreases retry - i
  {
    if i < retry {
      assert Retried(net(i));
      var err' := if Classify(net(i)).Fail? then Some(Classify(net(i)).exc) else err;
      RunFromExhausted(net, retry, i + 1, err');
    }
  }

  /** When every attempt is retried, `_get` issues exactly `retry` requests
      and raises the last recorded exception, or `None` if every attempt was
      a 429 (`AllThrottled`). */
  lemma {:induction false} GetExhausted<R>(net: nat -> Attempt<R>, retry: int)
    requires AllRetried(net, 0, retry)
    ensures Run(net, retry).requests == if retry < 0 then 0 else retry
    ensures LastError(net, if retry < 0 then 0 else retry).Some? ==>
              Run(net, retry).result == Failed(Raised(LastError(net, retry).value))
    ensures LastError(net, if retry < 0 then 0 else retry).None? ==>
              Run(net, retry).result == Failed(RaisedNone)
  {
    if retry >= 0 {
      RunFromExhausted(net, retry, 0, None);
    }
  }

  lemma {:induction false} RunFromThrottled<R>(net: nat -> Attempt<R>, retry: int, i: nat, err: Option<Exc>)
    requires forall j :: i <= j < retry ==> Classify(net(j)).Throttle?
    ensures var t := RunFrom(net, retry, i, err);
      && t.requests == (if i <= retry then retry - i else 0)
      && t.log == []
      && t.result == (if err.Some? then Failed(Raised(err.value)) else Failed(RaisedNone))
    decreases retry - i
  {
    if i < retry {
      RunFromThrottled(net, retry, i + 1, err);
    }
  }

  /** A call whose every attempt gets a 429 makes `retry` requests, logs
      nothing, and ends in `raise None` (`err` was never set). */
  lemma AllThrottled<R>(net: nat -> Attempt<R>, retry: int)
    requires forall j :: 0 <= j < retry ==> Classify(net(j)).Throttle?
    ensures Run(net, retry).requests == (if retry < 0 then 0 else retry)
    ensures Run(net, retry).log == []
    ensures Run(net, retry).result == Failed(RaisedNone)
  {
    RunFromThrottled(net, retry, 0, None);
  }

  lemma {:induction false} RunFromLog<R>(net: nat -> Attempt<R>, retry: int, i: nat, err: Option<Exc>)
    ensures RunFrom(net, retry, i, err).log == Logs(net, retry, i, i + RunFrom(net, retry, i, err).requests)
    decreases retry - i
  {
    if i < retry {
      match Classify(net(i))
      case Deliver(b) =>
      case Deny(s) =>
      case Throttle =>
        RunFromLog(net, retry, i + 1, err);
      case Fail(e) =>
        RunFromLog(net, retry, i + 1, Some(e));
    }
  }

  /** The log holds exactly one line per issued attempt that failed or was
      refused, in attempt order; a 429 and the successful attempt log nothing. */
  lemma {:induction false} GetLogsPerAttempt<R>(net: nat -> Attempt<R>, retry: int)
    ensures Run(net, retry).log == Logs(net, retry, 0, Run(net, retry).requests)
  {
    RunFromLog(net, retry, 0, None);
  }

  lemma {:induction false} RunFromSleeps<R>(net: nat -> Attempt<R>, retry: int, i: nat, err: Option<Exc>)
    ensures var t := RunFrom(net, retry, i, err);
      && |t.sleeps| == (if t.result.Return? || t.result.fault.AuthExit? then t.requests - 1 else t.requests)
      && (forall k :: 0 <= k < |t.sleeps| ==> t.sleeps[k] == i + k)
      && t.requests <= (if retry < i then 0 else retry - i)
    decreases retry - i
  {
    if i < retry {
      match Classify(net(i))
      case Deliver(b) =>
      case Deny(s) =>
      case Throttle =>
        RunFromSleeps(net, retry, i + 1, err);
      case Fail(e) =>
        RunFromSleeps(net, retry, i + 1, Some(e));
    }
  }

  /** At most `retry` requests; attempt `k` (0-based) that is retried sleeps
      `backoff ** k`, and only the last attempt does not sleep when it returns
      or exits. */
  lemma {:induction false} GetBounds<R>(net: nat -> Attempt<R>, retry: int)
    ensures Run(net, retry).requests <= if retry < 0 then 0 else retry
    ensures var t := Run(net, retry);
      |t.sleeps| == (if t.result.Return? || t.result.fault.AuthExit? then t.requests - 1 else t.requests)
    ensures forall k :: 0 <= k < |Run(net, retry).sleeps| ==> Run(net, retry).sleeps[k] == k
  {
    RunFromSleeps(net, retry, 0, None);
  }

  /** A 429 followed by a success: one success, nothing logged. */
  lemma {:induction false} ThrottledThenOk<R>(net: nat -> Attempt<R>, retry: int, body: R)
    requires retry >= 2 && net(0).Reply? && net(0).status == TooManyRequests
    requires net(1) == Reply(200, body)
    ensures Run(net, retry) == Trace(Return(body), 2, [], [0])
  {
    assert RunFrom(net, retry, 1, None) == Trace(Return(body), 1, [], []);
  }

  /** A 401 on the first attempt ends the run after that single request. */
  lemma {:induction false} UnauthorizedExits<R>(net: nat -> Attempt<R>, retry: int)
    requires retry >= 1 && net(0).Reply? && net(0).status == 401
    ensures Run(net, retry) == Trace(Failed(AuthExit(401)), 1, [AuthError(401)], [])
  {
  }
}
