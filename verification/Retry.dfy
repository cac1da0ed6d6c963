/** Retry policy and the resilient transport: one admission check, a bounded retry loop, one
    recorded outcome. Upstream answers, jitter and cancellation are parameters. */
module Retries {
  import opened Breakers
  import opened Powers

  datatype UpstreamError = ConnectError | StatusError(code: int) | OtherError(message: string) | ContextError

  datatype Outcome = Success(value: string) | Failure(error: UpstreamError)

  datatype Policy = Policy(maxAttempts: int, backoff: int, maxBackoff: int, retryableErrors: set<string>)

  datatype OptionalPolicy = NoPolicy | Some(policy: Policy)

  const MIN_INT64 := -0x8000_0000_0000_0000
  const MAX_INT64 := 0x7fff_ffff_ffff_ffff

  function Digits(n: nat): string {
    if n < 10 then ["0123456789"[n]] else Digits(n / 10) + ["0123456789"[n % 10]]
  }

  function Itoa(n: int): string {
    if n < 0 then "-" + Digits(-n) else Digits(n)
  }

  // ---------------------------------------------------------------------------------------------
  // Decimal texts
  // ---------------------------------------------------------------------------------------------

  predicate IsDigits(s: string) {
    s != "" && forall i :: 0 <= i < |s| ==> '0' <= s[i] <= '9'
  }

  /** Without leading zeros. */
  predicate Canonical(s: string) {
    IsDigits(s) && (|s| == 1 || s[0] != '0')
  }

  function Value(s: string): nat
    requires IsDigits(s)
  {
    var n := |s| - 1;
    (if n == 0 then 0 else Value(s[..n]) * 10) + (s[n] as int - '0' as int)
  }

  lemma DigitAt(d: nat)
    requires d < 10
    ensures "0123456789"[d] as int == '0' as int + d && '0' <= "0123456789"[d] <= '9'
  {
    var s := "0123456789";
    assert s[0] == '0' && s[1] == '1' && s[2] == '2' && s[3] == '3' && s[4] == '4' && s[5] == '5' && s[6] == '6' && s[7] == '7' && s[8] == '8' && s[9] == '9';
  }

  /** The text of a number is the one decimal text without leading zeros that has its value. */
  lemma {:induction false} DigitsExact(n: nat)
    ensures Canonical(Digits(n)) && Value(Digits(n)) == n && (n > 0 ==> Digits(n)[0] != '0')
  {
    DigitAt(n % 10);
    if n >= 10 {
      DigitsExact(n / 10);
      var s := Digits(n);
      assert s[..|s| - 1] == Digits(n / 10);
    }
  }

  lemma {:induction false} DigitsUnique(s: string)
    requires Canonical(s)
    ensures Digits(Value(s)) == s
    ensures |s| > 1 ==> Value(s) > 0
    ensures s[0] != '0' ==> Value(s) > 0
  {
    var n := |s| - 1;
    var d := s[n] as int - '0' as int;
    DigitAt(d);
    assert s == s[..n] + [s[n]];
    assert ["0123456789"[d]] == [s[n]];
    if n > 0 {
      var front := s[..n];
      assert front[0] == s[0];
      DigitsUnique(front);
      assert Value(s) == Value(front) * 10 + d;
      assert Value(s) / 10 == Value(front) && Value(s) % 10 == d;
    }
  }

  predicate IsRetryable(rp: OptionalPolicy, err: UpstreamError) {
    rp.Some? &&
    match err
    case ConnectError => "connection_error" in rp.policy.retryableErrors
    case StatusError(code) => Itoa(code) in rp.policy.retryableErrors
    case _ => false
  }

  /** Which errors are worth a retry: with a policy, a failed connection if the policy lists it, and a status
      if the policy lists the decimal text of its code; nothing else. */
  lemma RetryableExact(rp: OptionalPolicy, err: UpstreamError)
    ensures rp.NoPolicy? || err.OtherError? || err.ContextError? ==> !IsRetryable(rp, err)
    ensures rp.Some? && err.ConnectError? ==> (IsRetryable(rp, err) <==> "connection_error" in rp.policy.retryableErrors)
    ensures rp.Some? && err.StatusError? && err.code >= 0 ==>
              (IsRetryable(rp, err) <==> exists s :: s in rp.policy.retryableErrors && Canonical(s) && Value(s) == err.code)
    ensures rp.Some? && err.StatusError? && err.code < 0 ==>
              (IsRetryable(rp, err) <==> exists s :: Canonical(s) && Value(s) == -err.code && "-" + s in rp.policy.retryableErrors)
  {
    if err.StatusError? {
      var n := if err.code < 0 then -err.code else err.code;
      DigitsExact(n);
      forall s | Canonical(s) && Value(s) == n ensures s == Digits(n) {
        DigitsUnique(s);
      }
    }
  }

  /** Attempts a request may make. */
  function MaxAttempts(rp: OptionalPolicy): (m: nat)
    ensures m >= 1 && (m == 1 || (rp.Some? && m == rp.policy.maxAttempts))
    ensures rp.Some? ==> m >= rp.policy.maxAttempts
  {
    if rp.Some? && rp.policy.maxAttempts > 1 then rp.policy.maxAttempts else 1
  }

  // ---------------------------------------------------------------------------------------------
  // Backoff
  // ---------------------------------------------------------------------------------------------

  /** Conversion to a 64-bit duration: toward zero, and the least value when out of range. */
  function ToDuration(x: real): int {
    if !((MIN_INT64 as real) <= x < (MAX_INT64 as real) + 1.0) then MIN_INT64
    else if x >= 0.0 then x.Floor
    else -(-x).Floor
  }

  function Scaled(base: int, jitter: real): int {
    ToDuration(base as real * jitter)
  }

  /** The delay before retry `attempt`, with jitter in [0.5, 1). */
  function ComputeBackoff(p: Policy, attempt: nat, jitter: real): int {
    var d := Scaled(p.backoff * Pow2(attempt), jitter);
    if d > p.maxBackoff then p.maxBackoff else d
  }

  ghost predicate Jitters(js: seq<real>) {
    forall i :: 0 <= i < |js| ==> 0.5 <= js[i] < 1.0
  }

  /** How long a delay is waited: a timer with a negative one fires at once. */
  function Wait(p: Policy, attempt: nat, jitter: real): nat {
    var d := ComputeBackoff(p, attempt, jitter);
    if d < 0 then 0 else d
  }

  /** The time waited before retries 0, 1, ... */
  function TotalWait(p: Policy, js: seq<real>): nat {
    if js == [] then 0 else TotalWait(p, js[..|js| - 1]) + Wait(p, |js| - 1, js[|js| - 1])
  }

  lemma FloorAtMost(x: real, n: int)
    requires x <= n as real
    ensures x.Floor <= n
  {
    assert x.Floor as real <= x;
  }

  lemma Shrink(x: real, jitter: real)
    requires x >= 0.0 && 0.0 <= jitter < 1.0
    ensures 0.0 <= x * jitter <= x
  {
  }

  lemma ScaledAtMost(base: nat, jitter: real)
    requires 0.5 <= jitter < 1.0
    ensures Scaled(base, jitter) <= base
  {
    Shrink(base as real, jitter);
    var y := base as real * jitter;
    FloorAtMost(y, base);
  }

  lemma Product(a: nat, b: nat)
    ensures a * b >= 0
  {
  }

  lemma BackoffBound(p: Policy, attempt: nat, jitter: real)
    requires 0.5 <= jitter < 1.0
    ensures ComputeBackoff(p, attempt, jitter) <= p.maxBackoff
    ensures p.backoff >= 0 ==> ComputeBackoff(p, attempt, jitter) <= p.backoff * Pow2(attempt)
  {
    var base := p.backoff * Pow2(attempt);
    if p.backoff >= 0 {
      Product(p.backoff, Pow2(attempt));
      ScaledAtMost(base, jitter);
    }
  }

  lemma Halve(x: real, jitter: real) returns (y: real)
    requires x >= 0.0 && 0.5 <= jitter < 1.0
    ensures y == x * jitter && 0.0 <= y <= x <= 2.0 * y
  {
    y := x * jitter;
    Shrink(x, jitter);
    assert x * (jitter - 0.5) >= 0.0;
  }

  /** The scaled delay fits in 64 bits. */
  predicate Representable(base: int, jitter: real) {
    base as real * jitter < MAX_INT64 as real + 1.0
  }

  lemma DurationOfHalf(y: real, base: int)
    requires 0.0 <= y <= base as real <= 2.0 * y
    ensures y < MAX_INT64 as real + 1.0 ==> 2 * ToDuration(y) + 1 >= base
    ensures y >= MAX_INT64 as real + 1.0 ==> ToDuration(y) == MIN_INT64
  {
    if y < MAX_INT64 as real + 1.0 {
      assert ToDuration(y) == y.Floor;
      assert (2 * y.Floor + 2) as real == 2.0 * (y.Floor as real + 1.0) > 2.0 * y;
    }
  }

  lemma ScaledExact(base: nat, jitter: real)
    requires 0.5 <= jitter < 1.0
    ensures Representable(base, jitter) ==> 2 * Scaled(base, jitter) + 1 >= base
    ensures !Representable(base, jitter) ==> Scaled(base, jitter) == MIN_INT64
  {
    var y := Halve(base as real, jitter);
    DurationOfHalf(y, base);
    assert Scaled(base, jitter) == ToDuration(y);
  }

  /** The cap aside, a delay is at least half the unjittered one, up to rounding, exactly when the scaled
      value fits in 64 bits; otherwise it is the least duration, and the retry does not wait at all. */
  lemma BackoffAtLeastHalfExact(p: Policy, attempt: nat, jitter: real)
    requires 0.5 <= jitter < 1.0 && p.backoff >= 0 && p.maxBackoff > MIN_INT64
    ensures var d, base := ComputeBackoff(p, attempt, jitter), p.backoff * Pow2(attempt);
            && (d == p.maxBackoff || 2 * d + 1 >= base <==> Representable(base, jitter))
            && (!Representable(base, jitter) ==> Wait(p, attempt, jitter) == 0)
  {
    Product(p.backoff, Pow2(attempt));
    ScaledExact(p.backoff * Pow2(attempt), jitter);
  }

  lemma DurationExact(y: real)
    requires 0.0 <= y < MAX_INT64 as real + 1.0
    ensures ToDuration(y) == y.Floor
  {
  }

  lemma ScaledFloor(base: nat, jitter: real)
    requires 0.5 <= jitter < 1.0 && Representable(base, jitter)
    ensures Scaled(base, jitter) == (base as real * jitter).Floor
  {
    var y := Halve(base as real, jitter);
    DurationExact(y);
  }

  /** A delay that fits is the scaled one rounded down, or the cap if that is less. */
  lemma BackoffExact(p: Policy, attempt: nat, jitter: real, base: nat)
    requires 0.5 <= jitter < 1.0 && base == p.backoff * Pow2(attempt) && Representable(base, jitter)
    ensures var scaled := (base as real * jitter).Floor;
            ComputeBackoff(p, attempt, jitter) == if scaled > p.maxBackoff then p.maxBackoff else scaled
  {
    ScaledFloor(base, jitter);
  }

  /** With the default backoff and cap and forty attempts, retry 38 never waits, whatever the jitter. */
  lemma DefaultBackoffStopsWaiting(jitter: real)
    requires 0.5 <= jitter < 1.0
    ensures var p := Policy(40, 100_000_000, 2_000_000_000, {"connection_error"});
            ComputeBackoff(p, 38, jitter) < 0 && Wait(p, 38, jitter) == 0
  {
    var p := Policy(40, 100_000_000, 2_000_000_000, {"connection_error"});
    assert Pow2(38) == 0x40_0000_0000 by {
      assert Pow2(10) == 1024 && Pow2(20) == 1024 * 1024 && Pow2(30) == 1024 * 1024 * 1024;
    }
    var base := 100_000_000 * 0x40_0000_0000;
    var y := Halve(base as real, jitter);
    assert !Representable(base, jitter);
    BackoffAtLeastHalfExact(p, 38, jitter);
  }

  lemma NegativeNeverWaits(p: Policy, attempt: nat, jitter: real)
    requires 0.5 <= jitter < 1.0 && p.backoff < 0
    ensures Wait(p, attempt, jitter) == 0
  {
    var base := p.backoff * Pow2(attempt);
    Product(-p.backoff, Pow2(attempt));
    assert base <= 0;
    Shrink(-base as real, jitter);
    assert base as real * jitter <= 0.0;
  }

  lemma Doubling(b: int, p: int)
    ensures b * (2 * p - 1) == b * (p - 1) + b * p
  {
  }

  lemma Successor(n: int, b: int)
    ensures (n + 1) * b == n * b + b
  {
  }

  /** Each retry adds its own delay to the time waited, if that is positive. */
  lemma TotalWaitSum(p: Policy, js: seq<real>, j: real)
    ensures TotalWait(p, []) == 0
    ensures var d := ComputeBackoff(p, |js|, j); TotalWait(p, js + [j]) == TotalWait(p, js) + if d > 0 then d else 0
  {
    assert (js + [j])[..|js|] == js;
  }

  /** With n retries the time waited is at most n * maxBackoff and at most backoff * (2^n - 1). */
  lemma {:induction false} TotalWaitBound(p: Policy, js: seq<real>)
    requires Jitters(js)
    ensures p.maxBackoff >= 0 ==> TotalWait(p, js) <= |js| * p.maxBackoff
    ensures p.backoff >= 0 ==> TotalWait(p, js) <= p.backoff * (Pow2(|js|) - 1)
    ensures p.maxBackoff <= 0 || p.backoff <= 0 ==> TotalWait(p, js) == 0
  {
    if js != [] {
      var n := |js| - 1;
      TotalWaitBound(p, js[..n]);
      BackoffBound(p, n, js[n]);
      Doubling(p.backoff, Pow2(n));
      Successor(n, p.maxBackoff);
      if p.backoff >= 0 {
        Product(p.backoff, Pow2(n));
      } else {
        NegativeNeverWaits(p, n, js[n]);
      }
    }
  }

  // ---------------------------------------------------------------------------------------------
  // The retry loop
  // ---------------------------------------------------------------------------------------------

  datatype Trip = CircuitOpen | Returned(value: string) | Gave(error: UpstreamError)

  /** When the context is cancelled: it is seen at the head of attempt `at`, before the wait or in the
      middle of it. */
  datatype Cancellation = Cancellation(at: nat, midWait: bool)

  /** What a request comes to, the calls it made and the waits it asked for. */
  datatype Course = Course(trip: Trip, calls: nat, waits: nat)

  /** The loop from the head of attempt k on, after error `lastErr`, when the upstream would answer
      `script[k]` to call k. */
  function Loop(rp: OptionalPolicy, script: seq<Outcome>, cancel: Cancellation, k: nat, lastErr: UpstreamError): (r: Course)
    requires k <= MaxAttempts(rp) <= |script|
    ensures k <= r.calls <= MaxAttempts(rp) && (k == 0 ==> r.calls > 0)
    ensures r.waits < MaxAttempts(rp)
    decreases MaxAttempts(rp) - k
  {
    if k == MaxAttempts(rp) then Course(Gave(lastErr), k, k - 1)
    else if k > 0 && k >= cancel.at then Course(Gave(ContextError), k, if cancel.midWait then k else k - 1)
    else
      match script[k]
      case Success(value) => Course(Returned(value), k + 1, k)
      case Failure(error) =>
        if IsRetryable(rp, error) then Loop(rp, script, cancel, k + 1, error) else Course(Gave(error), k + 1, k)
  }

  /** The whole loop. */
  function Trips(rp: OptionalPolicy, script: seq<Outcome>, cancel: Cancellation): (r: Course)
    requires MaxAttempts(rp) <= |script|
    ensures 1 <= r.calls <= MaxAttempts(rp) && r.waits < MaxAttempts(rp)
  {
    Loop(rp, script, cancel, 0, ContextError)
  }

  /** Answers i up to but not including k are all errors worth retrying. */
  ghost predicate AllRetryable(rp: OptionalPolicy, script: seq<Outcome>, i: nat, k: nat)
    requires k <= |script|
  {
    forall j :: i <= j < k ==> script[j].Failure? && IsRetryable(rp, script[j].error)
  }

  /** Answer k is a success the loop gets to see from call i on. */
  ghost predicate Reaches(rp: OptionalPolicy, script: seq<Outcome>, cancel: Cancellation, i: nat, k: nat)
    requires MaxAttempts(rp) <= |script|
  {
    i <= k < MaxAttempts(rp) && (k == 0 || k < cancel.at) && script[k].Success? && AllRetryable(rp, script, i, k)
  }

  /** A success the loop gets to see is what it returns, after one wait between any two calls. */
  lemma {:induction false} ReachedIsReturned(rp: OptionalPolicy, script: seq<Outcome>, cancel: Cancellation, i: nat, lastErr: UpstreamError, k: nat)
    requires i <= MaxAttempts(rp) <= |script| && Reaches(rp, script, cancel, i, k)
    ensures Loop(rp, script, cancel, i, lastErr) == Course(Returned(script[k].value), k + 1, k)
    decreases MaxAttempts(rp) - i
  {
    if i < k {
      ReachedIsReturned(rp, script, cancel, i + 1, script[i].error, k);
    }
  }

  /** And nothing else is returned; a request that is not cancelled passes on the last call's error. A
      cancelled one asks for one wait more than it made retries iff it was cancelled during a wait. */
  lemma {:induction false} ReturnedIsReached(rp: OptionalPolicy, script: seq<Outcome>, cancel: Cancellation, i: nat, lastErr: UpstreamError)
    requires i <= MaxAttempts(rp) <= |script|
    requires i > 0 ==> script[i - 1] == Failure(lastErr)
    ensures var r := Loop(rp, script, cancel, i, lastErr);
            && r.calls > 0
            && (r.trip.Returned? ==> Reaches(rp, script, cancel, i, r.calls - 1) && script[r.calls - 1] == Success(r.trip.value))
            && (!r.trip.Returned? ==>
                  || (script[r.calls - 1].Failure? && r.trip == Gave(script[r.calls - 1].error) && r.waits == r.calls - 1)
                  || (r.trip == Gave(ContextError) && cancel.at <= r.calls < MaxAttempts(rp)
                      && r.waits == if cancel.midWait then r.calls else r.calls - 1))
    decreases MaxAttempts(rp) - i
  {
    if i < MaxAttempts(rp) && (i == 0 || i < cancel.at) && script[i].Failure? && IsRetryable(rp, script[i].error) {
      ReturnedIsReached(rp, script, cancel, i + 1, script[i].error);
    }
  }

  /** Without cancellation, the first success is returned iff only retryable errors, fewer than the
      attempts allowed, come before it; otherwise the result is the error of the last call. */
  lemma LoopMeaning(rp: OptionalPolicy, script: seq<Outcome>, cancel: Cancellation)
    requires MaxAttempts(rp) <= |script| && cancel.at >= MaxAttempts(rp)
    ensures var r := Trips(rp, script, cancel);
            && r.waits == r.calls - 1
            && (forall v :: r.trip == Returned(v) <==>
                  exists k :: 0 <= k < MaxAttempts(rp) && script[k] == Success(v) && AllRetryable(rp, script, 0, k))
            && (!r.trip.Returned? ==> script[r.calls - 1].Failure? && r.trip == Gave(script[r.calls - 1].error))
  {
    var r := Trips(rp, script, cancel);
    ReturnedIsReached(rp, script, cancel, 0, ContextError);
    forall k | 0 <= k < MaxAttempts(rp) && script[k].Success? && AllRetryable(rp, script, 0, k)
      ensures r == Course(Returned(script[k].value), k + 1, k)
    {
      ReachedIsReturned(rp, script, cancel, 0, ContextError, k);
    }
    if r.trip.Returned? {
      assert Reaches(rp, script, cancel, 0, r.calls - 1);
    }
  }

  class ResilientTransport {
    const cb: CircuitBreaker?
    const retry: OptionalPolicy

    constructor (cb: CircuitBreaker?, retry: OptionalPolicy)
      ensures this.cb == cb && this.retry == retry
    {
      this.cb, this.retry := cb, retry;
    }

    /** The breaker sees one admission check and, if it admits, exactly one outcome: success iff the
        loop returned an answer. `js[k]` is the jitter of wait k; `waited` is what the waits take
        unless cancellation cuts the last one short. */
    method RoundTrip(script: seq<Outcome>, cancel: Cancellation, js: seq<real>, now: int, now': int)
      returns (trip: Trip, calls: nat, waits: nat, waited: nat)
      requires |script| >= MaxAttempts(retry) && |js| >= MaxAttempts(retry) - 1
      modifies cb
      ensures cb != null ==>
                var (b, admitted) := AfterCheck(old(cb.View()), now);
                && admitted == !trip.CircuitOpen?
                && cb.View() == match trip
                                case CircuitOpen => b
                                case Returned(_) => AfterSuccess(b)
                                case Gave(_) => AfterFailure(b, now')
      ensures trip.CircuitOpen? ==> cb != null && calls == waits == 0
      ensures !trip.CircuitOpen? ==> Course(trip, calls, waits) == Trips(retry, script, cancel)
      ensures waits <= |js| && waited == if retry.Some? then TotalWait(retry.policy, js[..waits]) else 0
    {
      calls, waits, waited := 0, 0, 0;
      if cb != null {
        var admitted := cb.Allow(now);
        if !admitted {
          return CircuitOpen, 0, 0, 0;
        }
      }
      var maxAttempts := 1;
      if retry.Some? && retry.policy.maxAttempts > 1 {
        maxAttempts := retry.policy.maxAttempts;
      }
      var lastErr := ContextError;
      var attempt := 0;
      while attempt < maxAttempts
        invariant 0 <= attempt <= maxAttempts && calls == attempt
        invariant waits == if attempt == 0 then 0 else attempt - 1
        invariant Trips(retry, script, cancel) == Loop(retry, script, cancel, attempt, lastErr)
        invariant attempt > 0 ==> retry.Some?
        invariant waited == if retry.Some? then TotalWait(retry.policy, js[..waits]) else 0
      {
        if attempt > 0 {
          if attempt >= cancel.at && !cancel.midWait {
            lastErr := ContextError;
            break;
          }
          assert js[..attempt][..attempt - 1] == js[..attempt - 1];
          waited := waited + Wait(retry.policy, attempt - 1, js[attempt - 1]);
          waits := waits + 1;
          if attempt >= cancel.at {
            lastErr := ContextError;
            break;
          }
        }
        calls := calls + 1;
        match script[attempt] {
          case Success(value) =>
            if cb != null {
              cb.RecordSuccess();
            }
            return Returned(value), calls, waits, waited;
          case Failure(error) =>
            lastErr := error;
        }
        if !IsRetryable(retry, lastErr) {
          break;
        }
        attempt := attempt + 1;
      }
      if cb != null {
        cb.RecordFailure(now');
      }
      trip := Gave(lastErr);
    }
  }
}
