/** The ESI client's error-budget governor (`ESIClient` in crates/esi/src/lib.rs).

    The client keeps two shared counters: `errors`, how many erroring requests
    the server will still tolerate, and `error_timeout`, the seconds until the
    server resets that budget. `esi_get` waits out the timer before sending
    when the budget is low, retries once after a transport failure, and then
    sorts the response by status code; only a client error other than 420
    copies the server's own budget headers into the counters.

    The network is an oracle: an `Exchange` says what the first attempt and
    the retry would yield. Sleeps are not performed but reported, so that a
    contract can say how long the client would wait. */
module EsiClient {
  import opened Wrappers
  import opened Numbers
  import Decimal

  const INITIAL_ERRORS: U32 := 100
  const INITIAL_TIMEOUT: U32 := 0
  /** At or below this many remaining errors the client waits before sending. */
  const THROTTLE_AT: U32 := 10

  const REMAIN_HEADER := "x-esi-error-limit-remain"
  const RESET_HEADER := "x-esi-error-limit-reset"

  const NO_LIMIT := "No ESI Error limit found???"
  const NO_TIMER := "No ESI Reset Timer found???"
  const UNWRAP_ON_ERR := "called `Result::unwrap()` on an `Err` value"
  const UNWRAP_ERR_ON_OK := "called `Result::unwrap_err()` on an `Ok` value"

  /** Response headers, keyed by lower-case name as `http::HeaderMap` stores them. */
  type Headers = map<string, string>

  datatype Governor = Governor(errors: U32, errorTimeout: U32)

  /** The counters of a client fresh from `ESIClient::new`. */
  function New(): (g: Governor)
    ensures g.errors == 100 && g.errorTimeout == 0
    ensures !Throttled(g)
  {
    Governor(INITIAL_ERRORS, INITIAL_TIMEOUT)
  }

  predicate Throttled(g: Governor) {
    g.errors <= THROTTLE_AT
  }

  /** What one send of the request yields. */
  datatype Attempt =
    | TransportFailure(reason: string)
    | Response(status: StatusCode, headers: Headers)

  /** The first attempt, and what a retry would yield if one is made. */
  datatype Exchange = Exchange(first: Attempt, retry: Attempt)

  datatype Reply =
    | Delivered(status: StatusCode)
    | StatusError(status: StatusCode)
    | TransportError(reason: string)
    | Aborted(message: string)

  /** One `esi_get`: the counters afterwards, the wait before sending, the wait
      after a 420, how many requests went out, and what the caller sees. */
  datatype Call = Call(after: Governor, gateWait: Option<U32>, limitWait: Option<U32>, sent: nat, reply: Reply)

  predicate ClientError(a: Attempt) {
    a.Response? && 400 <= a.status <= 499 && a.status != 420
  }

  /** `headers.get(name).expect(missing).to_str().unwrap().parse().unwrap()`. */
  function ReadHeader(h: Headers, name: string, missing: string): (r: Result<U32, string>)
    ensures name !in h ==> r == Failure(missing)
    ensures name in h && Decimal.ParseU32(h[name]).None? ==> r == Failure(UNWRAP_ON_ERR)
    ensures r.Success? <==> name in h && Decimal.ParseU32(h[name]).Some?
    ensures r.Success? ==> Decimal.ParseU32(h[name]) == Some(r.value)
  {
    if name !in h then Failure(missing)
    else
      match Decimal.ParseU32(h[name])
      case None => Failure(UNWRAP_ON_ERR)
      case Some(v) => Success(v)
  }

  /** The status `match` of `esi_get`, applied to the response that arrived
      after `sent` requests, with the counters as they then stand. */
  function Classify(g: Governor, gate: Option<U32>, sent: nat, a: Attempt): (c: Call)
    requires a.Response?
    ensures c.gateWait == gate && c.sent == sent
    ensures c.reply.Delivered? <==> a.status == 200
    ensures a.status == 200 ==> c.reply == Delivered(200) && c.after == g && c.limitWait == None
    ensures a.status == 420 ==> c.reply == StatusError(420) && c.after == g && c.limitWait == Some(g.errorTimeout)
    ensures 500 <= a.status <= 599 ==> c.reply == StatusError(a.status) && c.after == g && c.limitWait == None
    ensures ClientError(a) ==> c.limitWait == None
    ensures ClientError(a) && REMAIN_HEADER !in a.headers ==> c.reply == Aborted(NO_LIMIT) && c.after == g
    ensures ClientError(a) ==>
              (c.reply == StatusError(a.status) <==>
               ReadHeader(a.headers, REMAIN_HEADER, NO_LIMIT).Success? && ReadHeader(a.headers, RESET_HEADER, NO_TIMER).Success?)
    ensures ClientError(a) && ReadHeader(a.headers, REMAIN_HEADER, NO_LIMIT).Failure? ==>
              c.reply == Aborted(ReadHeader(a.headers, REMAIN_HEADER, NO_LIMIT).error) && c.after == g
    ensures ClientError(a) && ReadHeader(a.headers, REMAIN_HEADER, NO_LIMIT).Success?
              && ReadHeader(a.headers, RESET_HEADER, NO_TIMER).Failure? ==>
              && c.reply == Aborted(ReadHeader(a.headers, RESET_HEADER, NO_TIMER).error)
              && c.after == g.(errors := ReadHeader(a.headers, REMAIN_HEADER, NO_LIMIT).value)
    ensures ClientError(a) && c.reply.StatusError? ==>
              && REMAIN_HEADER in a.headers && RESET_HEADER in a.headers
              && Decimal.ParseU32(a.headers[REMAIN_HEADER]) == Some(c.after.errors)
              && Decimal.ParseU32(a.headers[RESET_HEADER]) == Some(c.after.errorTimeout)
    ensures (a.status < 400 && a.status != 200) || a.status >= 600 ==>
              c.reply == Aborted(UNWRAP_ERR_ON_OK) && c.after == g
    ensures c.after.errorTimeout != g.errorTimeout ==> ClientError(a)
    ensures c.after.errors != g.errors ==> ClientError(a)
  {
    var s := a.status;
    if s == 200 then Call(g, gate, None, sent, Delivered(s))
    else if s == 420 then Call(g, gate, Some(g.errorTimeout), sent, StatusError(s))
    else if 400 <= s <= 499 then
      match ReadHeader(a.headers, REMAIN_HEADER, NO_LIMIT)
      case Failure(m) => Call(g, gate, None, sent, Aborted(m))
      case Success(remain) =>
        match ReadHeader(a.headers, RESET_HEADER, NO_TIMER)
        case Failure(m) => Call(g.(errors := remain), gate, None, sent, Aborted(m))
        case Success(reset) => Call(Governor(remain, reset), gate, None, sent, StatusError(s))
    else if 500 <= s <= 599 then Call(g, gate, None, sent, StatusError(s))
    else Call(g, gate, None, sent, Aborted(UNWRAP_ERR_ON_OK))
  }

  /** `esi_get`: budget gate, one retry on a transport failure, then `Classify`. */
  function EsiGet(g: Governor, p: Profile, x: Exchange): (c: Call)
    ensures c.gateWait.Some? <==> g.errors <= 10
    ensures c.gateWait.Some? ==> c.gateWait.value == g.errorTimeout
    ensures x.first.Response? ==> c.sent == 1 && c == Classify(g, c.gateWait, 1, x.first)
    ensures x.first.TransportFailure? && Decrement(g.errors, p).Failure? ==>
              c.reply == Aborted(Decrement(g.errors, p).error) && c.after == g && c.sent == 1
    ensures x.first.TransportFailure? && Decrement(g.errors, p).Success? && x.retry.TransportFailure? ==>
              && c.reply == TransportError(x.retry.reason) && c.sent == 2 && c.limitWait == None
              && c.after == g.(errors := Decrement(g.errors, p).value)
    ensures x.first.TransportFailure? && Decrement(g.errors, p).Success? && x.retry.Response? ==>
              c == Classify(g.(errors := Decrement(g.errors, p).value), c.gateWait, 2, x.retry)
    ensures x.first.TransportFailure? && g.errors > 0 ==> c.sent == 2
    ensures x.first.TransportFailure? && x.retry.TransportFailure? && g.errors > 0 ==>
              c.reply == TransportError(x.retry.reason) && c.after == Governor(g.errors - 1, g.errorTimeout)
    ensures x.first.TransportFailure? && x.retry.Response? && g.errors > 0 ==>
              c == Classify(Governor(g.errors - 1, g.errorTimeout), c.gateWait, 2, x.retry)
    ensures x.first.TransportFailure? && g.errors == 0 && p == Debug ==>
              c.reply == Aborted(SUB_OVERFLOW) && c.after == g && c.sent == 1
    ensures x.first.TransportFailure? && x.retry.TransportFailure? && g.errors == 0 && p == Release ==>
              c.after.errors == U32_LIMIT - 1 && !Throttled(c.after)
    ensures c.reply.Delivered? ==> c.reply.status == 200
    ensures c.after.errorTimeout != g.errorTimeout ==> ClientError(x.first) || ClientError(x.retry)
    ensures c.after.errors != g.errors ==> x.first.TransportFailure? || ClientError(x.first)
  {
    var gate := if Throttled(g) then Some(g.errorTimeout) else None;
    match x.first
    case Response(_, _) => Classify(g, gate, 1, x.first)
    case TransportFailure(_) =>
      match Decrement(g.errors, p)
      case Failure(m) => Call(g, gate, None, 1, Aborted(m))
      case Success(e) =>
        var g1 := g.(errors := e);
        match x.retry
        case TransportFailure(reason) => Call(g1, gate, None, 2, TransportError(reason))
        case Response(_, _) => Classify(g1, gate, 2, x.retry)
  }

  /** The counters after a series of `esi_get` calls made one after another. A
      call that panics still leaves its writes behind: the counters live in
      shared mutexes that a panic does not poison. */
  function Session(g: Governor, p: Profile, xs: seq<Exchange>): Governor
    decreases |xs|
  {
    if |xs| == 0 then g else EsiGet(Session(g, p, xs[..|xs| - 1]), p, xs[|xs| - 1]).after
  }

  /** Number of calls whose first attempt failed in transport. */
  function Retries(xs: seq<Exchange>): nat
    decreases |xs|
  {
    if |xs| == 0 then 0
    else Retries(xs[..|xs| - 1]) + (if xs[|xs| - 1].first.TransportFailure? then 1 else 0)
  }

  lemma ModDecrement(y: int)
    ensures ((y % U32_LIMIT) - 1) % U32_LIMIT == (y - 1) % U32_LIMIT
  {
    var q := y / U32_LIMIT;
    assert y == q * U32_LIMIT + y % U32_LIMIT;
    assert (y - 1) == q * U32_LIMIT + ((y % U32_LIMIT) - 1);
  }

  /** Without client errors (other than 420) the reset timer never moves, and
      in a release build the budget only drops, one per transport retry,
      modulo 2^32. */
  lemma {:induction false} SessionWithoutClientErrors(g: Governor, xs: seq<Exchange>)
    requires forall i | 0 <= i < |xs| :: !ClientError(xs[i].first) && !ClientError(xs[i].retry)
    ensures Session(g, Release, xs).errorTimeout == g.errorTimeout
    ensures Session(g, Release, xs).errors == (g.errors - Retries(xs)) % U32_LIMIT
    decreases |xs|
  {
    if |xs| > 0 {
      var pre := xs[..|xs| - 1];
      var x := xs[|xs| - 1];
      SessionWithoutClientErrors(g, pre);
      var s := Session(g, Release, pre);
      assert s.errors == (g.errors - Retries(pre)) % U32_LIMIT;
      CallWithoutClientErrors(s, x);
      if x.first.TransportFailure? {
        ModDecrement(g.errors - Retries(pre));
      }
    }
  }

  /** One release-build call without a client error: the timer stays, and the
      budget drops by one, wrapping, exactly when the first attempt failed in
      transport. */
  lemma CallWithoutClientErrors(g: Governor, x: Exchange)
    requires !ClientError(x.first) && !ClientError(x.retry)
    ensures EsiGet(g, Release, x).after.errorTimeout == g.errorTimeout
    ensures x.first.TransportFailure? ==> EsiGet(g, Release, x).after.errors == (g.errors - 1) % U32_LIMIT
    ensures x.first.Response? ==> EsiGet(g, Release, x).after.errors == g.errors
  {
  }
}
