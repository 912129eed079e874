/** The two retry loops of the storage backends: HTTP requests and pooled SFTP operations. */
module Retry {
  import opened MachineTypes
  import opened Wrappers

  datatype RetryConfig = RetryConfig(maxRetries: nat, delayMs: nat, maxDelayMs: nat)

  // ---------- which errors are worth another try ----------

  datatype IoKind =
    | ConnectionReset | ConnectionAborted | BrokenPipe | UnexpectedEof | TimedOut | Interrupted | OtherIo

  predicate IsRetryableIo(kind: IoKind) {
    kind != OtherIo
  }

  datatype HttpError = Transport | RetryableStatus(code: nat) | BodyIo(kind: IoKind) | Permanent
  {
    predicate IsRetryable() {
      match this
      case Transport => true
      case RetryableStatus(_) => true
      case BodyIo(kind) => IsRetryableIo(kind)
      case Permanent => false
    }
  }

  /** A status is an error from 400 on, and worth another try exactly for 429 and from 500 on. */
  function ClassifyStatus(code: nat): (r: Result<(), HttpError>)
    ensures r.Ok? <==> code < 400
    ensures r.Err? ==> (r.error.IsRetryable() <==> code == 429 || code >= 500)
  {
    if code < 400 then Ok(())
    else if code == 429 || code >= 500 then Err(RetryableStatus(code))
    else Err(Permanent)
  }

  // ---------- backoff ----------

  function Min(a: nat, b: nat): nat {
    if a <= b then a else b
  }

  function Pow2(n: nat): (r: nat)
    ensures r > 0
  {
    if n == 0 then 1 else 2 * Pow2(n - 1)
  }

  /** The base of the `k`-th sleep, counting from one: each is twice the one before, capped; the first one is
      not capped. */
  function Base(initial: nat, cap: nat, k: nat): nat
    requires k > 0
  {
    if k == 1 then initial else Min(2 * Base(initial, cap, k - 1), cap)
  }

  /** In closed form. */
  lemma {:induction false} BaseClosedForm(initial: nat, cap: nat, k: nat)
    requires k > 1
    ensures Base(initial, cap, k) == Min(Pow2(k - 1) * initial, cap)
  {
    assert Pow2(k - 1) * initial == 2 * (Pow2(k - 2) * initial);
    if k > 2 {
      BaseClosedForm(initial, cap, k - 1);
    } else {
      assert Pow2(0) * initial == initial;
    }
  }

  function BaseSum(initial: nat, cap: nat, n: nat): nat {
    if n == 0 then 0 else BaseSum(initial, cap, n - 1) + Base(initial, cap, n)
  }

  lemma {:induction false} BaseAtMostDoubling(initial: nat, cap: nat, n: nat)
    requires n > 0
    ensures Base(initial, cap, n) <= Pow2(n - 1) * initial
  {
    if n > 1 {
      BaseClosedForm(initial, cap, n);
    } else {
      assert Pow2(0) * initial == initial;
    }
  }

  lemma DoublingSum(p: nat, initial: nat)
    requires p > 0
    ensures (p - 1) * initial + p * initial == (2 * p - 1) * initial
  {
  }

  lemma {:induction false} BaseSumCapped(initial: nat, cap: nat, n: nat)
    requires n > 0
    ensures BaseSum(initial, cap, n) <= initial + (n - 1) * cap
  {
    if n > 1 {
      BaseSumCapped(initial, cap, n - 1);
      assert (n - 2) * cap + cap == (n - 1) * cap;
    } else {
      assert BaseSum(initial, cap, 0) == 0;
    }
  }

  lemma {:induction false} BaseSumDoubled(initial: nat, cap: nat, n: nat)
    ensures BaseSum(initial, cap, n) <= (Pow2(n) - 1) * initial
  {
    if n > 0 {
      BaseSumDoubled(initial, cap, n - 1);
      BaseAtMostDoubling(initial, cap, n);
      DoublingSum(Pow2(n - 1), initial);
    }
  }

  /** The sum of the first `n` bases grows no faster than the cap allows, nor than plain doubling. */
  lemma BaseSumBounds(initial: nat, cap: nat, n: nat)
    ensures n > 0 ==> BaseSum(initial, cap, n) <= initial + (n - 1) * cap
    ensures BaseSum(initial, cap, n) <= (Pow2(n) - 1) * initial
  {
    BaseSumDoubled(initial, cap, n);
    if n > 0 {
      BaseSumCapped(initial, cap, n);
    }
  }

  /** From the second on, no base is smaller than the one before. */
  lemma {:induction false} BaseGrows(initial: nat, cap: nat, k: nat, n: nat)
    requires 2 <= k <= n
    ensures Base(initial, cap, k) <= Base(initial, cap, n) <= cap
  {
    if k < n {
      BaseGrows(initial, cap, k, n - 1);
    }
  }

  function Sum(sleeps: seq<nat>): nat {
    if sleeps == [] then 0 else Sum(sleeps[..|sleeps| - 1]) + sleeps[|sleeps| - 1]
  }

  /** Each sleep is its base plus jitter smaller than the base (or no sleep at all for a base of zero). */
  ghost predicate Backoff(sleeps: seq<nat>, initial: nat, cap: nat) {
    forall k :: 0 <= k < |sleeps| ==>
      Base(initial, cap, k + 1) <= sleeps[k] && (sleeps[k] < 2 * Base(initial, cap, k + 1) || sleeps[k] == 0)
  }

  lemma {:induction false} TotalSleep(sleeps: seq<nat>, initial: nat, cap: nat)
    requires Backoff(sleeps, initial, cap)
    ensures Sum(sleeps) <= 2 * BaseSum(initial, cap, |sleeps|)
  {
    if sleeps != [] {
      var n := |sleeps| - 1;
      assert Backoff(sleeps[..n], initial, cap) by {
        forall k | 0 <= k < n
          ensures Base(initial, cap, k + 1) <= sleeps[..n][k]
              && (sleeps[..n][k] < 2 * Base(initial, cap, k + 1) || sleeps[..n][k] == 0)
        {
          assert sleeps[..n][k] == sleeps[k];
        }
      }
      TotalSleep(sleeps[..n], initial, cap);
      assert Base(initial, cap, n + 1) <= sleeps[n];
    }
  }

  /** `u64` arithmetic as the release build does it. */
  function Wrap(n: nat): nat {
    if n <= MAX_U64 then n else n - (MAX_U64 + 1)
  }

  function AtLeastOne(n: nat): nat {
    if n == 0 then 1 else n
  }

  /** The base `base` and the jitter drawn from `random`, added. */
  function Jittered(base: nat, random: nat): nat {
    Wrap(base + random % AtLeastOne(base))
  }

  /** The `k`-th sleep for a given base, when `random(k)` is the draw. */
  function Jittering(random: nat -> nat): (nat, nat) -> nat {
    (k: nat, base: nat) => Jittered(base, random(k))
  }

  lemma JitteredFits(base: nat, random: nat)
    requires 2 * base <= MAX_U64 + 1
    ensures base <= Jittered(base, random)
    ensures Jittered(base, random) < 2 * base || Jittered(base, random) == 0
  {
  }

  lemma SmallModulo(x: nat, m: nat)
    requires x < m
    ensures x % m == x
  {
    var q := x / m;
    assert x == q * m + x % m;
    assert q >= 1 ==> q * m >= m;
  }

  /** The largest draw wraps around as soon as twice the base does not fit. */
  lemma JitteredWraps(base: nat)
    requires base <= MAX_U64 && 2 * base > MAX_U64 + 1
    ensures Jittered(base, base - 1) < base
  {
    SmallModulo(base - 1, base);
  }

  // ---------- HTTP ----------

  /** The first `n` calls all failed in a way worth another try. */
  predicate AllRetryable<T>(calls: nat -> Result<T, HttpError>, n: nat) {
    n == 0 || (AllRetryable(calls, n - 1) && calls(n - 1).Err? && calls(n - 1).error.IsRetryable())
  }

  /** Each of them failed in transport, with status 429 or 500 and above, or while a body was read from a
      connection that broke. */
  lemma {:induction false} RetryableAt<T>(calls: nat -> Result<T, HttpError>, n: nat, k: nat)
    requires AllRetryable(calls, n) && k < n
    ensures calls(k).Err?
    ensures var e := calls(k).error; e != Permanent && e != BodyIo(OtherIo)
  {
    if k < n - 1 {
      RetryableAt(calls, n - 1, k);
    }
  }

  /** Only permanent errors and other I/O errors end the attempts early. */
  lemma GivesUpOn<T>(calls: nat -> Result<T, HttpError>, made: nat, maxRetries: nat, r: Result<T, HttpError>)
    requires RetriesThenStops(calls, made, maxRetries, r) && r.Err? && made <= maxRetries
    ensures r.error == Permanent || r.error == BodyIo(OtherIo)
  {
  }

  /** The `k`-th call is `calls(k)`. */
  ghost predicate RetriesThenStops<T>(
    calls: nat -> Result<T, HttpError>, made: nat, maxRetries: nat, r: Result<T, HttpError>)
  {
    && 0 < made <= maxRetries + 1
    && r == calls(made - 1)
    && AllRetryable(calls, made - 1)
    && (r.Err? && r.error.IsRetryable() ==> made == maxRetries + 1)
  }

  /** The base of the `k`-th sleep as it is computed, in `u64`. */
  function HttpDelay(config: RetryConfig, k: nat): nat
    requires k > 0
  {
    if k == 1 then config.delayMs else Min(Wrap(2 * HttpDelay(config, k - 1)), config.maxDelayMs)
  }

  function HttpSleeps(config: RetryConfig, jittered: (nat, nat) -> nat, n: nat): (r: seq<nat>)
    ensures |r| == n
  {
    if n == 0 then [] else HttpSleeps(config, jittered, n - 1) + [jittered(n, HttpDelay(config, n))]
  }

  lemma {:induction false} HttpSleepAt(config: RetryConfig, jittered: (nat, nat) -> nat, n: nat, k: nat)
    requires k < n
    ensures HttpSleeps(config, jittered, n)[k] == jittered(k + 1, HttpDelay(config, k + 1))
  {
    if k < n - 1 {
      HttpSleepAt(config, jittered, n - 1, k);
    }
  }

  /** `retry_http`; `jittered(k, base)` is what the `k`-th sleep makes of its base. */
  method RetryHttp<T>(config: RetryConfig, calls: nat -> Result<T, HttpError>, jittered: (nat, nat) -> nat)
    returns (r: Result<T, HttpError>, made: nat, sleeps: seq<nat>)
    ensures RetriesThenStops(calls, made, config.maxRetries, r)
    ensures sleeps == HttpSleeps(config, jittered, made - 1)
  {
    var delayMs: nat := config.delayMs;
    sleeps, made := [], 0;
    var attempt: nat := 0;
    while attempt <= config.maxRetries
      invariant attempt <= config.maxRetries && made == attempt
      invariant delayMs == HttpDelay(config, if attempt == 0 then 1 else attempt)
      invariant sleeps == HttpSleeps(config, jittered, if attempt == 0 then 0 else attempt - 1)
      invariant AllRetryable(calls, attempt)
      decreases config.maxRetries - attempt
    {
      if attempt > 0 {
        sleeps := sleeps + [jittered(attempt, delayMs)];
        delayMs := Min(Wrap(delayMs * 2), config.maxDelayMs);
      }
      var result := calls(attempt);
      made := made + 1;
      if result.Ok? {
        return result, made, sleeps;
      }
      if !(result.error.IsRetryable() && attempt < config.maxRetries) {
        return result, made, sleeps;
      }
      attempt := attempt + 1;
    }
    assert false;
  }

  /** No base of the first `n` sleeps is more than half of what `u64` holds, and none that is doubled
      reaches half. */
  ghost predicate HttpBasesFit(config: RetryConfig, n: nat) {
    forall k: nat :: 1 <= k <= n ==>
      && 2 * Base(config.delayMs, config.maxDelayMs, k) <= MAX_U64 + 1
      && (k < n && config.maxDelayMs > 0 ==> 2 * Base(config.delayMs, config.maxDelayMs, k) <= MAX_U64)
  }

  lemma {:induction false} HttpDelayIsBase(config: RetryConfig, k: nat, n: nat)
    requires config.maxDelayMs <= MAX_U64 && 0 < k <= n && HttpBasesFit(config, n)
    ensures HttpDelay(config, k) == Base(config.delayMs, config.maxDelayMs, k)
  {
    if k > 1 {
      HttpDelayIsBase(config, k - 1, n);
    }
  }

  lemma HttpBackoff(config: RetryConfig, random: nat -> nat, n: nat)
    requires config.maxDelayMs <= MAX_U64 && HttpBasesFit(config, n)
    ensures Backoff(HttpSleeps(config, Jittering(random), n), config.delayMs, config.maxDelayMs)
  {
    forall k | 0 <= k < n
      ensures var base, sleep := Base(config.delayMs, config.maxDelayMs, k + 1), HttpSleeps(config, Jittering(random), n)[k];
        base <= sleep && (sleep < 2 * base || sleep == 0)
    {
      HttpSleepAt(config, Jittering(random), n, k);
      HttpDelayIsBase(config, k + 1, n);
      JitteredFits(HttpDelay(config, k + 1), random(k + 1));
    }
  }

  /** Where the bases stop fitting, the delay has wrapped around to zero, or is right and too large. */
  predicate TooLarge(delay: nat, base: nat) {
    || (delay == 0 && base > 0)
    || (delay == base && base <= MAX_U64 && 2 * base > MAX_U64 + 1)
  }

  lemma FailsAtLast(config: RetryConfig, n: nat)
    requires config.delayMs <= MAX_U64 && config.maxDelayMs <= MAX_U64
    requires n > 0 && HttpBasesFit(config, n - 1) && !HttpBasesFit(config, n)
    ensures TooLarge(HttpDelay(config, n), Base(config.delayMs, config.maxDelayMs, n))
  {
    var initial, cap := config.delayMs, config.maxDelayMs;
    if n > 1 {
      HttpDelayIsBase(config, n - 1, n - 1);
      assert 2 * Base(initial, cap, n - 1) <= MAX_U64 + 1;
    }
  }

  lemma WorstDraw(delay: nat, base: nat)
    requires TooLarge(delay, base)
    ensures Jittered(delay, if delay > 0 then delay - 1 else 0) < base
  {
    if delay > 0 {
      JitteredWraps(delay);
    }
  }

  lemma LongerBackoff(config: RetryConfig, random: nat -> nat, n: nat)
    requires n > 0 && !Backoff(HttpSleeps(config, Jittering(random), n - 1), config.delayMs, config.maxDelayMs)
    ensures !Backoff(HttpSleeps(config, Jittering(random), n), config.delayMs, config.maxDelayMs)
  {
    var sleeps := HttpSleeps(config, Jittering(random), n);
    assert sleeps[..n - 1] == HttpSleeps(config, Jittering(random), n - 1);
    if Backoff(sleeps, config.delayMs, config.maxDelayMs) {
      BackoffPrefix(sleeps, n - 1, config.delayMs, config.maxDelayMs);
    }
  }

  /** The jitter that goes wrong, if any does. */
  lemma {:induction false} HttpBackoffFails(config: RetryConfig, n: nat) returns (random: nat -> nat)
    requires config.delayMs <= MAX_U64 && config.maxDelayMs <= MAX_U64 && !HttpBasesFit(config, n)
    ensures !Backoff(HttpSleeps(config, Jittering(random), n), config.delayMs, config.maxDelayMs)
  {
    if !HttpBasesFit(config, n - 1) {
      random := HttpBackoffFails(config, n - 1);
      LongerBackoff(config, random, n);
    } else {
      FailsAtLast(config, n);
      random := WorstDraws(config, n);
    }
  }

  lemma WorstDraws(config: RetryConfig, n: nat) returns (random: nat -> nat)
    requires n > 0 && TooLarge(HttpDelay(config, n), Base(config.delayMs, config.maxDelayMs, n))
    ensures !Backoff(HttpSleeps(config, Jittering(random), n), config.delayMs, config.maxDelayMs)
  {
    var delay := HttpDelay(config, n);
    WorstDraw(delay, Base(config.delayMs, config.maxDelayMs, n));
    var worst := if delay > 0 then delay - 1 else 0;
    random := (_: nat) => worst;
    HttpSleepAt(config, Jittering(random), n, n - 1);
  }

  lemma BackoffPrefix(sleeps: seq<nat>, n: nat, initial: nat, cap: nat)
    requires Backoff(sleeps, initial, cap) && n <= |sleeps|
    ensures Backoff(sleeps[..n], initial, cap)
  {
    forall k | 0 <= k < n
      ensures Base(initial, cap, k + 1) <= sleeps[..n][k]
          && (sleeps[..n][k] < 2 * Base(initial, cap, k + 1) || sleeps[..n][k] == 0)
    {
      assert sleeps[..n][k] == sleeps[k];
    }
  }

  /** The same in terms of the settings alone. */
  predicate HttpFits(config: RetryConfig, n: nat) {
    var d, cap := config.delayMs, config.maxDelayMs;
    && (n >= 1 ==> 2 * d <= MAX_U64 + 1)
    && (n >= 2 && cap > 0 ==> 2 * d <= MAX_U64 && 2 * Min(Pow2(n - 1) * d, cap) <= MAX_U64 + 1)
    && (n >= 3 && cap > 0 ==> 2 * Min(Pow2(n - 2) * d, cap) <= MAX_U64)
  }

  lemma HttpFitsIff(config: RetryConfig, n: nat)
    ensures HttpFits(config, n) <==> HttpBasesFit(config, n)
  {
    var d, cap := config.delayMs, config.maxDelayMs;
    if n >= 2 {
      BaseClosedForm(d, cap, n);
    }
    if n >= 3 {
      BaseClosedForm(d, cap, n - 1);
    }
    if HttpFits(config, n) {
      forall k: nat | 1 <= k <= n
        ensures 2 * Base(d, cap, k) <= MAX_U64 + 1 && (k < n && cap > 0 ==> 2 * Base(d, cap, k) <= MAX_U64)
      {
        if k >= 2 {
          BaseGrows(d, cap, k, n);
        }
        if 2 <= k < n {
          BaseGrows(d, cap, k, n - 1);
        }
      }
    }
    if HttpBasesFit(config, n) {
      FitsAt(config, n);
    }
  }

  lemma FitsAt(config: RetryConfig, n: nat)
    requires HttpBasesFit(config, n)
    ensures var d, cap := config.delayMs, config.maxDelayMs;
      && (n >= 1 ==> 2 * d <= MAX_U64 + 1)
      && (n >= 2 ==> 2 * Base(d, cap, n) <= MAX_U64 + 1 && (cap > 0 ==> 2 * d <= MAX_U64))
      && (n >= 3 && cap > 0 ==> 2 * Base(d, cap, n - 1) <= MAX_U64)
  {
    if n >= 1 {
      assert Base(config.delayMs, config.maxDelayMs, 1) == config.delayMs;
    }
  }

  /** Each sleep is its base plus jitter, whatever the jitter, exactly when the settings are small enough. */
  lemma HttpBackoffIff(config: RetryConfig, n: nat)
    requires config.delayMs <= MAX_U64 && config.maxDelayMs <= MAX_U64
    ensures HttpFits(config, n) <==>
      forall random: nat -> nat :: Backoff(HttpSleeps(config, Jittering(random), n), config.delayMs, config.maxDelayMs)
  {
    HttpFitsIff(config, n);
    if HttpFits(config, n) {
      forall random: nat -> nat
        ensures Backoff(HttpSleeps(config, Jittering(random), n), config.delayMs, config.maxDelayMs)
      {
        HttpBackoff(config, random, n);
      }
    } else {
      var random := HttpBackoffFails(config, n);
    }
  }

  /** Giving up on HTTP takes at most this long. */
  lemma HttpSleepBound(config: RetryConfig, random: nat -> nat, n: nat)
    requires config.maxDelayMs <= MAX_U64 && HttpFits(config, n)
    ensures var total := Sum(HttpSleeps(config, Jittering(random), n));
      && (n > 0 ==> total <= 2 * (config.delayMs + (n - 1) * config.maxDelayMs))
      && total <= 2 * ((Pow2(n) - 1) * config.delayMs)
  {
    HttpFitsIff(config, n);
    HttpBackoff(config, random, n);
    TotalSleep(HttpSleeps(config, Jittering(random), n), config.delayMs, config.maxDelayMs);
    BaseSumBounds(config.delayMs, config.maxDelayMs, n);
  }

  /** Half of what `u64` can hold, and one more. */
  const TOO_LONG: nat := 0x8000_0000_0000_0001

  lemma TooLongWraps()
    ensures Jittered(TOO_LONG, TOO_LONG - 1) == 1
  {
    SmallModulo(TOO_LONG - 1, TOO_LONG);
  }

  /** A first delay that is too long: the largest draw turns it into one millisecond. */
  lemma HttpBackoffExample(maxRetries: nat, maxDelayMs: nat)
    ensures var config := RetryConfig(maxRetries, TOO_LONG, maxDelayMs);
      && !HttpFits(config, 1)
      && HttpSleeps(config, Jittering((_: nat) => TOO_LONG - 1), 1) == [1]
  {
    var config := RetryConfig(maxRetries, TOO_LONG, maxDelayMs);
    TooLongWraps();
    HttpSleepAt(config, Jittering((_: nat) => TOO_LONG - 1), 1, 0);
  }

  // ---------- SFTP ----------

  /** How one attempt went: no connection, or a connection and the operation's answer. */
  datatype Attempt<T> = NoConn(retryable: bool) | Failed(retryable: bool) | Done(value: T)

  /** What became of the connection the attempt held. */
  datatype Guard = Unheld | Released | Discarded

  function Disposal<T>(a: Attempt<T>): Guard {
    match a
    case NoConn(_) => Unheld
    case Failed(retryable) => if retryable then Discarded else Released
    case Done(_) => Released
  }

  predicate WorthRetrying<T>(a: Attempt<T>) {
    !a.Done? && a.retryable
  }

  /** The first `n` attempts were all worth another one. */
  predicate Retried<T>(attempts: nat -> Attempt<T>, n: nat) {
    n == 0 || (Retried(attempts, n - 1) && WorthRetrying(attempts(n - 1)))
  }

  /** What became of the connections of the first `n` attempts. */
  function Disposals<T>(attempts: nat -> Attempt<T>, n: nat): (r: seq<Guard>)
    ensures |r| == n
  {
    if n == 0 then [] else Disposals(attempts, n - 1) + [Disposal(attempts(n - 1))]
  }

  /** A connection is thrown away exactly after an error worth a retry, and released after a success or any
      other error; an attempt that got none has none to give back. */
  ghost predicate GuardsFit<T>(attempts: nat -> Attempt<T>, guards: seq<Guard>) {
    forall k :: 0 <= k < |guards| ==>
      && (guards[k] == Discarded <==> attempts(k).Failed? && attempts(k).retryable)
      && (guards[k] == Released <==> attempts(k).Done? || (attempts(k).Failed? && !attempts(k).retryable))
      && (guards[k] == Unheld <==> attempts(k).NoConn?)
  }

  lemma {:induction false} DisposalsFit<T>(attempts: nat -> Attempt<T>, n: nat)
    ensures GuardsFit(attempts, Disposals(attempts, n))
  {
    if n > 0 {
      DisposalsFit(attempts, n - 1);
    }
  }

  /** All attempts before the last got no connection, or failed, in a way worth another try. */
  lemma {:induction false} RetriedAt<T>(attempts: nat -> Attempt<T>, n: nat, k: nat)
    requires Retried(attempts, n) && k < n
    ensures !attempts(k).Done? && attempts(k).retryable
  {
    if k < n - 1 {
      RetriedAt(attempts, n - 1, k);
    }
  }

  function SaturatingDouble(n: nat): nat {
    if 2 * n > MAX_U64 then MAX_U64 else 2 * n
  }

  /** The delay before the `k`-th sleep, and the base of that sleep, as they are computed. */
  function OpDelay(config: RetryConfig, k: nat): nat
    requires k > 0
  {
    if k == 1 then config.delayMs
    else Min(SaturatingDouble(AtLeastOne(OpDelay(config, k - 1))), AtLeastOne(config.maxDelayMs))
  }

  function OpBase(config: RetryConfig, k: nat): nat
    requires k > 0
  {
    AtLeastOne(OpDelay(config, k))
  }

  function OpSleeps(config: RetryConfig, jittered: (nat, nat) -> nat, n: nat): (r: seq<nat>)
    ensures |r| == n
  {
    if n == 0 then [] else OpSleeps(config, jittered, n - 1) + [jittered(n, OpBase(config, n))]
  }

  lemma {:induction false} OpSleepAt(config: RetryConfig, jittered: (nat, nat) -> nat, n: nat, k: nat)
    requires k < n
    ensures OpSleeps(config, jittered, n)[k] == jittered(k + 1, OpBase(config, k + 1))
  {
    if k < n - 1 {
      OpSleepAt(config, jittered, n - 1, k);
    }
  }

  /** What one attempt does with its connection, and whether another one may follow. */
  method GiveBack<T>(a: Attempt<T>) returns (guard: Guard, again: bool)
    ensures guard == Disposal(a) && again == WorthRetrying(a)
  {
    match a {
      case NoConn(retryable) => return Unheld, retryable;
      case Done(_) => return Released, false;
      case Failed(retryable) =>
        if retryable {
          return Discarded, true;
        } else {
          return Released, false;
        }
    }
  }

  /** The loop of `retry_op`. */
  method RetryAttempts<T>(config: RetryConfig, attempts: nat -> Attempt<T>, jittered: (nat, nat) -> nat)
    returns (last: Attempt<T>, made: nat, sleeps: seq<nat>, guards: seq<Guard>)
    ensures 0 < made <= config.maxRetries + 1 && last == attempts(made - 1)
    ensures Retried(attempts, made - 1)
    ensures WorthRetrying(last) ==> made == config.maxRetries + 1
    ensures guards == Disposals(attempts, made)
    ensures sleeps == OpSleeps(config, jittered, made - 1)
  {
    var delayMs: nat := config.delayMs;
    sleeps, guards, made := [], [], 0;
    var attempt: nat := 0;
    while attempt <= config.maxRetries
      invariant attempt <= config.maxRetries && made == attempt && guards == Disposals(attempts, attempt)
      invariant delayMs == OpDelay(config, if attempt == 0 then 1 else attempt)
      invariant sleeps == OpSleeps(config, jittered, if attempt == 0 then 0 else attempt - 1)
      invariant Retried(attempts, attempt)
      decreases config.maxRetries - attempt
    {
      if attempt > 0 {
        var base := AtLeastOne(delayMs);
        sleeps := sleeps + [jittered(attempt, base)];
        delayMs := Min(SaturatingDouble(base), AtLeastOne(config.maxDelayMs));
      }
      last := attempts(attempt);
      made := made + 1;
      var guard, again := GiveBack(last);
      guards := guards + [guard];
      assert guards == Disposals(attempts, made);
      if !(again && attempt < config.maxRetries) {
        return;
      }
      attempt := attempt + 1;
    }
    assert false;
  }

  /** `retry_op`: every held connection is given back exactly once, and only broken ones are thrown away. */
  method RetryOp<T>(config: RetryConfig, attempts: nat -> Attempt<T>, jittered: (nat, nat) -> nat)
    returns (last: Attempt<T>, made: nat, sleeps: seq<nat>, guards: seq<Guard>)
    ensures 0 < made <= config.maxRetries + 1 && last == attempts(made - 1)
    ensures Retried(attempts, made - 1)
    ensures WorthRetrying(last) ==> made == config.maxRetries + 1
    ensures |guards| == made && GuardsFit(attempts, guards)
    ensures sleeps == OpSleeps(config, jittered, made - 1)
  {
    last, made, sleeps, guards := RetryAttempts(config, attempts, jittered);
    DisposalsFit(attempts, made);
  }

  /** Saturation never shows: the bases are the ones of unbounded arithmetic. */
  lemma {:induction false} OpBaseIsBase(config: RetryConfig, k: nat)
    requires k > 0 && config.maxDelayMs <= MAX_U64
    ensures OpBase(config, k) == Base(AtLeastOne(config.delayMs), AtLeastOne(config.maxDelayMs), k) > 0
  {
    if k > 1 {
      OpBaseIsBase(config, k - 1);
    }
  }

  lemma {:induction false} OpBaseInRange(config: RetryConfig, k: nat)
    requires k > 0 && config.delayMs <= MAX_U64 && config.maxDelayMs <= MAX_U64
    ensures OpBase(config, k) <= MAX_U64
  {
  }

  /** The settings under which no SFTP sleep wraps around. */
  predicate OpFits(config: RetryConfig, n: nat) {
    var d, cap := AtLeastOne(config.delayMs), AtLeastOne(config.maxDelayMs);
    && (n >= 1 ==> 2 * d <= MAX_U64 + 1)
    && (n >= 2 ==> 2 * Min(Pow2(n - 1) * d, cap) <= MAX_U64 + 1)
  }

  ghost predicate OpBasesFit(config: RetryConfig, n: nat) {
    forall k: nat :: 1 <= k <= n ==> 2 * OpBase(config, k) <= MAX_U64 + 1
  }

  lemma OpFitsIff(config: RetryConfig, n: nat)
    requires config.maxDelayMs <= MAX_U64
    ensures OpFits(config, n) <==> OpBasesFit(config, n)
  {
    var d, cap := AtLeastOne(config.delayMs), AtLeastOne(config.maxDelayMs);
    if n >= 1 {
      OpBaseIsBase(config, 1);
      OpBaseIsBase(config, n);
    }
    if n >= 2 {
      BaseClosedForm(d, cap, n);
    }
    if OpFits(config, n) {
      forall k: nat | 1 <= k <= n
        ensures 2 * OpBase(config, k) <= MAX_U64 + 1
      {
        OpBaseIsBase(config, k);
        if k >= 2 {
          BaseGrows(d, cap, k, n);
        }
      }
    }
  }

  /** Each SFTP sleep is its base plus jitter, whatever the jitter, exactly when the settings are small enough. */
  lemma OpBackoffIff(config: RetryConfig, n: nat)
    requires config.delayMs <= MAX_U64 && config.maxDelayMs <= MAX_U64
    ensures OpFits(config, n) <==>
      forall random: nat -> nat ::
        Backoff(OpSleeps(config, Jittering(random), n), AtLeastOne(config.delayMs), AtLeastOne(config.maxDelayMs))
  {
    OpFitsIff(config, n);
    if k: nat :| 1 <= k <= n && 2 * OpBase(config, k) > MAX_U64 + 1 {
      OpBackoffFails(config, n, k);
    } else {
      forall random: nat -> nat
        ensures Backoff(OpSleeps(config, Jittering(random), n), AtLeastOne(config.delayMs), AtLeastOne(config.maxDelayMs))
      {
        OpBackoff(config, random, n);
      }
    }
  }

  lemma OpBackoff(config: RetryConfig, random: nat -> nat, n: nat)
    requires config.maxDelayMs <= MAX_U64 && OpBasesFit(config, n)
    ensures Backoff(OpSleeps(config, Jittering(random), n), AtLeastOne(config.delayMs), AtLeastOne(config.maxDelayMs))
  {
    var initial, cap := AtLeastOne(config.delayMs), AtLeastOne(config.maxDelayMs);
    forall k | 0 <= k < n
      ensures var base, sleep := Base(initial, cap, k + 1), OpSleeps(config, Jittering(random), n)[k];
        base <= sleep && (sleep < 2 * base || sleep == 0)
    {
      OpSleepAt(config, Jittering(random), n, k);
      OpBaseIsBase(config, k + 1);
      JitteredFits(OpBase(config, k + 1), random(k + 1));
    }
  }

  lemma OpBackoffFails(config: RetryConfig, n: nat, k: nat)
    requires config.delayMs <= MAX_U64 && config.maxDelayMs <= MAX_U64
    requires 1 <= k <= n && 2 * OpBase(config, k) > MAX_U64 + 1
    ensures exists random: nat -> nat ::
      !Backoff(OpSleeps(config, Jittering(random), n), AtLeastOne(config.delayMs), AtLeastOne(config.maxDelayMs))
  {
    var base := OpBase(config, k);
    var random := (i: nat) => base - 1;
    OpBaseIsBase(config, k);
    OpBaseInRange(config, k);
    JitteredWraps(base);
    OpSleepAt(config, Jittering(random), n, k - 1);
  }

  /** Giving up on an SFTP operation takes at most this long, apart from the attempts themselves. */
  lemma OpSleepBound(config: RetryConfig, random: nat -> nat, n: nat)
    requires config.maxDelayMs <= MAX_U64 && OpFits(config, n)
    ensures var total := Sum(OpSleeps(config, Jittering(random), n));
      var d, cap := AtLeastOne(config.delayMs), AtLeastOne(config.maxDelayMs);
      && (n > 0 ==> total <= 2 * (d + (n - 1) * cap))
      && total <= 2 * ((Pow2(n) - 1) * d)
  {
    var d, cap := AtLeastOne(config.delayMs), AtLeastOne(config.maxDelayMs);
    OpFitsIff(config, n);
    OpBackoff(config, random, n);
    TotalSleep(OpSleeps(config, Jittering(random), n), d, cap);
    BaseSumBounds(d, cap, n);
  }

  /** A first delay that is too long for SFTP. */
  lemma OpBackoffExample(maxRetries: nat, maxDelayMs: nat)
    ensures var config := RetryConfig(maxRetries, TOO_LONG, maxDelayMs);
      && !OpFits(config, 1)
      && OpSleeps(config, Jittering((_: nat) => TOO_LONG - 1), 1) == [1]
  {
    var config := RetryConfig(maxRetries, TOO_LONG, maxDelayMs);
    TooLongWraps();
    OpSleepAt(config, Jittering((_: nat) => TOO_LONG - 1), 1, 0);
  }
}
