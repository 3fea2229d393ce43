// The shared back-off after HTTP 429, and the retry loop of one enumerated page.
module RateLimit {
  import opened Common

  const MIN_BACKOFF_SECONDS := 1
  const MAX_BACKOFF_SECONDS := 60
  const MAX_BACKOFF_RETRIES := 6

  function Clamp(n: nat): nat {
    if n < MIN_BACKOFF_SECONDS then MIN_BACKOFF_SECONDS else if n > MAX_BACKOFF_SECONDS then MAX_BACKOFF_SECONDS else n
  }

  function SaturatingDouble(n: nat): nat {
    if 2 * n > U64_MAX then U64_MAX else 2 * n
  }

  // A `Retry-After` in seconds wins over doubling.
  function Next(prior: nat, retryAfter: Option<nat>): nat {
    if retryAfter.Some? then Clamp(retryAfter.value) else Clamp(SaturatingDouble(prior))
  }

  // The back-offs of a run of 429 answers, in order.
  function Backoffs(prior: nat, headers: seq<Option<nat>>): seq<nat>
    decreases |headers|
  {
    if headers == [] then []
    else
      var n := Next(prior, headers[0]);
      [n] + Backoffs(n, headers[1..])
  }

  class RateLimitState {
    var backoffUntilMs: nat
    var lastBackoffSeconds: nat

    constructor ()
      ensures backoffUntilMs == 0 && lastBackoffSeconds == 0
    {
      backoffUntilMs, lastBackoffSeconds := 0, 0;
    }

    method Record429(retryAfter: Option<nat>, now: nat) returns (seconds: nat)
      modifies this
      ensures seconds == Next(old(lastBackoffSeconds), retryAfter) == lastBackoffSeconds
      ensures 1 <= seconds <= 60
      ensures retryAfter.Some? ==> seconds == if retryAfter.value < 1 then 1 else if retryAfter.value > 60 then 60 else retryAfter.value
      ensures retryAfter.None? ==> seconds == if old(lastBackoffSeconds) == 0 then 1 else if old(lastBackoffSeconds) >= 30 then 60 else 2 * old(lastBackoffSeconds)
      ensures backoffUntilMs == now + 1000 * seconds
    {
      match retryAfter {
        case Some(d) =>
          seconds := d;
        case None =>
          seconds := lastBackoffSeconds * 2;
          if seconds > U64_MAX { seconds := U64_MAX; }
      }
      if seconds < MIN_BACKOFF_SECONDS { seconds := MIN_BACKOFF_SECONDS; }
      if seconds > MAX_BACKOFF_SECONDS { seconds := MAX_BACKOFF_SECONDS; }
      lastBackoffSeconds := seconds;
      backoffUntilMs := now + seconds * 1000;
    }

    method Clear()
      modifies this
      ensures backoffUntilMs == 0 && lastBackoffSeconds == 0
    {
      backoffUntilMs, lastBackoffSeconds := 0, 0;
    }
  }

  // ---- the numbers -------------------------------------------------------------

  function Min(a: nat, b: nat): nat {
    if a < b then a else b
  }

  function Silent(n: nat): (headers: seq<Option<nat>>)
    ensures |headers| == n && forall i | 0 <= i < n :: headers[i] == None
  {
    seq(n, i => None)
  }

  // Any mix of headers stays in range.
  lemma {:induction false} BackoffRange(prior: nat, headers: seq<Option<nat>>)
    ensures |Backoffs(prior, headers)| == |headers|
    ensures forall n <- Backoffs(prior, headers) :: 1 <= n <= 60
    decreases |headers|
  {
    if headers == [] {
    } else {
      BackoffRange(Next(prior, headers[0]), headers[1..]);
    }
  }

  // A header of at most a minute is obeyed whatever came before; silence doubles.
  lemma NextExactly(prior: nat, header: nat)
    ensures Next(prior, Some(header)) == (if header < 1 then 1 else if header > 60 then 60 else header)
    ensures Next(prior, None) == (if prior == 0 then 1 else if prior >= 30 then 60 else 2 * prior)
  {
  }

  // x doubled k times; 2^k for x = 1.
  function Doubled(x: nat, k: nat): nat {
    if k == 0 then x else 2 * Doubled(x, k - 1)
  }

  lemma {:induction false} DoubledShift(x: nat, k: nat)
    ensures Doubled(2 * x, k) == Doubled(x, k + 1)
    ensures Doubled(x, k) >= x
  {
    if k == 0 {
    } else {
      DoubledShift(x, k - 1);
    }
  }

  lemma {:induction false} DoublesFrom(prior: nat, headers: seq<Option<nat>>, k: nat)
    requires k < |headers| && (forall h <- headers :: h.None?) && 1 <= prior <= MAX_BACKOFF_SECONDS
    ensures k < |Backoffs(prior, headers)| && Backoffs(prior, headers)[k] == Min(MAX_BACKOFF_SECONDS, Doubled(prior, k + 1))
    decreases k
  {
    assert headers[0] in headers;
    var n := Next(prior, headers[0]);
    assert n == Min(MAX_BACKOFF_SECONDS, 2 * prior);
    if k == 0 {
      assert Doubled(prior, 1) == 2 * prior;
    } else {
      DoublesFrom(n, headers[1..], k - 1);
      DoubledShift(prior, k);
      DoubledShift(2 * prior, k);
      DoubledShift(n, k);
    }
  }

  // From a cleared state the n-th answer in a row without a header doubles from
  // one second up to the cap.
  lemma NthBackoff(n: nat, k: nat)
    requires k < n
    ensures |Backoffs(0, Silent(n))| == n && Backoffs(0, Silent(n))[k] == Min(60, Doubled(1, k))
  {
    var headers := Silent(n);
    BackoffRange(0, headers);
    assert Next(0, headers[0]) == 1;
    if k > 0 {
      DoublesFrom(1, headers[1..], k - 1);
    }
  }

  function Sum(s: seq<nat>): nat {
    if s == [] then 0 else s[0] + Sum(s[1..])
  }

  function TotalSilent(prior: nat, n: nat): nat
    decreases n
  {
    if n == 0 then 0 else Next(prior, None) + TotalSilent(Next(prior, None), n - 1)
  }

  lemma {:induction false} SumSilent(prior: nat, n: nat)
    ensures Sum(Backoffs(prior, Silent(n))) == TotalSilent(prior, n)
    decreases n
  {
    if n == 0 {
    } else {
      SumSilent(Next(prior, None), n - 1);
      assert Silent(n)[1..] == Silent(n - 1);
    }
  }

  // Six silent answers wait 63 seconds in all exactly when the state was clear;
  // an enumeration that gave up has left its last back-off behind, and the next
  // one then waits six minutes.
  lemma SixSilent(prior: nat)
    ensures Sum(Backoffs(prior, Silent(6))) == 63 <==> prior == 0
    ensures prior >= 32 ==> Sum(Backoffs(prior, Silent(6))) == 360
  {
    SumSilent(prior, 6);
    hide Sum, Backoffs, Next;
    var a := Next(prior, None);
    var b := Next(a, None);
    var c := Next(b, None);
    var d := Next(c, None);
    assert TotalSilent(prior, 6) == a + b + TotalSilent(b, 4);
    assert TotalSilent(b, 4) == c + d + TotalSilent(d, 2);
    assert TotalSilent(d, 2) == Next(d, None) + Next(Next(d, None), None);
    SixValues(prior);
  }

  lemma SixValues(prior: nat)
    ensures var a := Next(prior, None); var b := Next(a, None); var c := Next(b, None); var d := Next(c, None);
      var e := Next(d, None); var f := Next(e, None);
      (a + b + c + d + e + f == 63 <==> prior == 0) && (prior >= 32 ==> a + b + c + d + e + f == 360)
  {
  }

  // ---- one page of the enumeration ---------------------------------------------

  datatype Response = TooMany(retryAfter: Option<nat>) | Answer(status: nat) | Broken

  datatype PageResult = Got(status: nat) | HttpError | BackoffExhausted(retries: nat)

  // The headers of the first n answers, if those are all 429.
  function Headers(server: nat -> Response, n: nat): seq<Option<nat>>
    requires forall i | 0 <= i < n :: server(i).TooMany?
  {
    if n == 0 then [] else Headers(server, n - 1) + [server(n - 1).retryAfter]
  }

  lemma {:induction false} BackoffsAppend(prior: nat, headers: seq<Option<nat>>, h: Option<nat>)
    ensures |Backoffs(prior, headers)| == |headers|
    ensures var last := if headers == [] then prior else Backoffs(prior, headers)[|headers| - 1];
      Backoffs(prior, headers + [h]) == Backoffs(prior, headers) + [Next(last, h)]
    decreases |headers|
  {
    if headers == [] {
    } else {
      assert (headers + [h])[1..] == headers[1..] + [h];
      BackoffsAppend(Next(prior, headers[0]), headers[1..], h);
    }
  }

  // One more 429 adds the back-off that follows the last one.
  lemma OneMore(prior: nat, server: nat -> Response, n: nat)
    requires forall i | 0 <= i <= n :: server(i).TooMany?
    ensures var waits := Backoffs(prior, Headers(server, n));
      && |waits| == n
      && Backoffs(prior, Headers(server, n + 1)) == waits + [Next(if n == 0 then prior else waits[n - 1], server(n).retryAfter)]
  {
    HeadersCounted(server, n);
    BackoffsAppend(prior, Headers(server, n), server(n).retryAfter);
  }

  lemma {:induction false} HeadersCounted(server: nat -> Response, n: nat)
    requires forall i | 0 <= i < n :: server(i).TooMany?
    ensures |Headers(server, n)| == n
  {
    if n == 0 {
    } else {
      HeadersCounted(server, n - 1);
    }
  }

  // `server(i)` answers the i-th request. At most seven requests are sent: the
  // first answer that is no 429 ends the loop, and the seventh 429 ends it without
  // a further back-off. The waits are the back-offs of the 429s before that.
  method FetchPage(state: RateLimitState, server: nat -> Response, clock: nat -> nat)
    returns (r: PageResult, requests: nat, waits: seq<nat>)
    modifies state
    ensures 1 <= requests <= 7
    ensures forall i | 0 <= i < requests - 1 :: server(i).TooMany?
    ensures waits == Backoffs(old(state.lastBackoffSeconds), Headers(server, requests - 1))
    ensures match r
      case Got(status) => server(requests - 1) == Answer(status)
      case HttpError => server(requests - 1).Broken?
      case BackoffExhausted(n) => n == 6 && requests == 7 && server(6).TooMany?
  {
    assert Backoffs(state.lastBackoffSeconds, Headers(server, 0)) == [];
    hide Backoffs, Next, Headers;
    var retries := 0;
    requests, waits := 0, [];
    while true
      invariant requests == retries <= MAX_BACKOFF_RETRIES
      invariant forall i | 0 <= i < retries :: server(i).TooMany?
      invariant waits == Backoffs(old(state.lastBackoffSeconds), Headers(server, retries))
      invariant |waits| == retries
      invariant state.lastBackoffSeconds == if retries == 0 then old(state.lastBackoffSeconds) else waits[retries - 1]
      decreases MAX_BACKOFF_RETRIES - retries
    {
      var response := server(requests);
      requests := requests + 1;
      if response.Broken? { return HttpError, requests, waits; }
      if response.Answer? { return Got(response.status), requests, waits; }
      if retries >= MAX_BACKOFF_RETRIES { return BackoffExhausted(retries), requests, waits; }
      OneMore(old(state.lastBackoffSeconds), server, retries);
      retries := retries + 1;
      var applied := state.Record429(response.retryAfter, clock(requests));
      waits := waits + [applied];
    }
  }
}
