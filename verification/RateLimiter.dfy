/**
The byte-rate limiter shared by several threads: each call adds its bytes under a mutex, works out how far
the total is ahead of the allowed rate, and sleeps that long outside the mutex.  Time is exact.
*/
module RateLimiter {
  import opened Wrappers

  function Max(a: real, b: real): real {
    if a >= b then a else b
  }

  /** The shared state: bytes consumed since the start. */
  class ByteRateLimiter {
    const bytesPerSec: nat
    var bytesConsumed: nat

    constructor (bytesPerSec: nat)
      ensures this.bytesPerSec == bytesPerSec && bytesConsumed == 0
    {
      this.bytesPerSec, bytesConsumed := bytesPerSec, 0;
    }

    /** `elapsed` is the time since the start at which the mutex is held; the call returns `sleep` later, which
        is the first moment the total is within the rate, and at once if it already is. */
    method Consume(bytes: nat, elapsed: real) returns (sleep: real)
      modifies this
      ensures bytes == 0 || bytesPerSec == 0 ==> sleep == 0.0 && bytesConsumed == old(bytesConsumed)
      ensures bytes > 0 && bytesPerSec > 0 ==>
        && bytesConsumed == old(bytesConsumed) + bytes
        && elapsed + sleep == Max(elapsed, bytesConsumed as real / bytesPerSec as real)
    {
      if bytes == 0 || bytesPerSec == 0 {
        return 0.0;
      }
      bytesConsumed := bytesConsumed + bytes;
      var expected := bytesConsumed as real / bytesPerSec as real;
      if expected > elapsed {
        return expected - elapsed;
      }
      return 0.0;
    }
  }

  // ---------- any number of callers ----------

  /** A call that has passed the mutex; it may return once the clock reaches `due`. */
  datatype Call = Call(bytes: nat, due: real, returned: bool)

  /** Calls in the order they held the mutex; `now` counts from the limiter's start. */
  datatype System = System(now: real, calls: seq<Call>)

  datatype Action = Tick(elapsed: real) | Consume(bytes: nat) | Return(i: nat)

  function Total(calls: seq<Call>): nat {
    if calls == [] then 0 else Total(calls[..|calls| - 1]) + calls[|calls| - 1].bytes
  }

  /** The bytes of the calls that have returned. */
  function Delivered(calls: seq<Call>): nat {
    if calls == [] then 0
    else
      var last := calls[|calls| - 1];
      Delivered(calls[..|calls| - 1]) + if last.returned then last.bytes else 0
  }

  predicate Enabled(s: System, a: Action) {
    match a
    case Tick(elapsed) => elapsed >= 0.0
    case Consume(bytes) => bytes > 0
    case Return(i) => i < |s.calls| && !s.calls[i].returned && s.now >= s.calls[i].due
  }

  /** How long a number of bytes takes at a given rate. */
  function Pace(rate: nat): nat -> real
    requires rate > 0
  {
    (bytes: nat) => bytes as real / rate as real
  }

  function Do(s: System, a: Action, pace: nat -> real): System
    requires Enabled(s, a)
  {
    match a
    case Tick(elapsed) => s.(now := s.now + elapsed)
    case Consume(bytes) =>
      s.(calls := s.calls + [Call(bytes, Max(s.now, pace(Total(s.calls) + bytes)), false)])
    case Return(i) => s.(calls := s.calls[i := s.calls[i].(returned := true)])
  }

  function Run(acts: seq<Action>, pace: nat -> real): Option<System> {
    if acts == [] then Some(System(0.0, []))
    else
      var last := |acts| - 1;
      match Run(acts[..last], pace)
      case None => None
      case Some(s) => if Enabled(s, acts[last]) then Some(Do(s, acts[last], pace)) else None
  }

  /** Call `i` is not due before everything up to and including it fits the rate, and has not returned early. */
  ghost predicate CallOk(s: System, pace: nat -> real, i: nat)
    requires i < |s.calls|
  {
    && s.calls[i].due >= pace(Total(s.calls[..i + 1]))
    && (s.calls[i].returned ==> s.now >= s.calls[i].due)
  }

  ghost predicate Inv(s: System, pace: nat -> real) {
    s.now >= 0.0 && forall i: nat :: i < |s.calls| ==> CallOk(s, pace, i)
  }

  lemma {:induction false} TotalIgnoresReturns(calls: seq<Call>, i: nat)
    requires i < |calls|
    ensures Total(calls[i := calls[i].(returned := true)]) == Total(calls)
  {
    var n, calls' := |calls| - 1, calls[i := calls[i].(returned := true)];
    if i < n {
      assert calls'[..n] == calls[..n][i := calls[..n][i].(returned := true)];
      TotalIgnoresReturns(calls[..n], i);
    } else {
      assert calls'[..n] == calls[..n];
    }
  }

  lemma ReturnKeepsTotals(calls: seq<Call>, i: nat, k: nat)
    requires i < |calls| && k <= |calls|
    ensures Total(calls[i := calls[i].(returned := true)][..k]) == Total(calls[..k])
  {
    var calls' := calls[i := calls[i].(returned := true)];
    if i < k {
      assert calls'[..k] == calls[..k][i := calls[..k][i].(returned := true)];
      TotalIgnoresReturns(calls[..k], i);
    } else {
      assert calls'[..k] == calls[..k];
    }
  }

  lemma StepKeepsInv(s: System, a: Action, pace: nat -> real)
    requires Inv(s, pace) && Enabled(s, a)
    ensures Inv(Do(s, a, pace), pace)
  {
    var s' := Do(s, a, pace);
    forall i: nat | i < |s'.calls|
      ensures CallOk(s', pace, i)
    {
      if i < |s.calls| {
        assert CallOk(s, pace, i);
        if a.Return? {
          ReturnKeepsTotals(s.calls, a.i, i + 1);
        } else {
          assert s'.calls[..i + 1] == s.calls[..i + 1];
        }
      } else {
        assert s'.calls[..i + 1] == s'.calls && s'.calls[..i] == s.calls;
      }
    }
  }

  lemma {:induction false} ReachableInv(acts: seq<Action>, pace: nat -> real, s: System)
    requires Run(acts, pace) == Some(s)
    ensures Inv(s, pace)
    decreases |acts|
  {
    if acts != [] {
      var last := |acts| - 1;
      ReachableInv(acts[..last], pace, Run(acts[..last], pace).value);
      StepKeepsInv(Run(acts[..last], pace).value, acts[last], pace);
    }
  }

  lemma {:induction false} DeliveredAtMostTotal(calls: seq<Call>)
    ensures Delivered(calls) <= Total(calls)
  {
    if calls != [] {
      DeliveredAtMostTotal(calls[..|calls| - 1]);
    }
  }

  /** Everything delivered was counted by the time the last returned call held the mutex. */
  lemma {:induction false} DeliveredByLastReturned(calls: seq<Call>) returns (k: nat)
    requires Delivered(calls) > 0
    ensures k < |calls| && calls[k].returned && Delivered(calls) <= Total(calls[..k + 1])
  {
    var n := |calls| - 1;
    if calls[n].returned {
      k := n;
      assert calls[..n + 1] == calls;
      DeliveredAtMostTotal(calls);
    } else {
      k := DeliveredByLastReturned(calls[..n]);
      assert calls[..n][..k + 1] == calls[..k + 1];
    }
  }

  lemma DivideOut(bytes: nat, rate: nat, now: real)
    requires rate > 0 && now >= bytes as real / rate as real
    ensures bytes as real <= rate as real * now
  {
    var q := bytes as real / rate as real;
    assert rate as real * q == bytes as real;
    assert rate as real * (now - q) >= 0.0;
  }

  /** Some call that has returned accounts for everything delivered. */
  lemma DeliveredInTime(acts: seq<Action>, pace: nat -> real, s: System) returns (total: nat)
    requires Run(acts, pace) == Some(s) && Delivered(s.calls) > 0
    ensures Delivered(s.calls) <= total && s.now >= pace(total)
  {
    ReachableInv(acts, pace, s);
    var k := DeliveredByLastReturned(s.calls);
    assert CallOk(s, pace, k);
    total := Total(s.calls[..k + 1]);
  }

  /** So many bytes are allowed by the time `now`. */
  predicate Fits(bytes: nat, rate: nat, now: real) {
    bytes as real <= rate as real * now
  }

  lemma ScaleUp(delivered: nat, total: nat, rate: nat, now: real)
    requires rate > 0 && delivered <= total && now >= Pace(rate)(total)
    ensures Fits(delivered, rate, now)
  {
    DivideOut(total, rate, now);
  }

  lemma NothingFits(rate: nat, now: real)
    requires now >= 0.0
    ensures Fits(0, rate, now)
  {
  }

  lemma DeliveredFits(acts: seq<Action>, rate: nat, s: System)
    requires rate > 0 && Run(acts, Pace(rate)) == Some(s) && Delivered(s.calls) > 0
    ensures Fits(Delivered(s.calls), rate, s.now)
  {
    var pace := Pace(rate);
    var total := DeliveredInTime(acts, pace, s);
    ScaleUp(Delivered(s.calls), total, rate, s.now);
  }

  /** For every interleaving of calls and returns, the bytes of all calls that have returned never exceed
      the rate times the time since the start. */
  lemma RateIsRespected(acts: seq<Action>, rate: nat, s: System)
    requires rate > 0 && Run(acts, Pace(rate)) == Some(s)
    ensures Fits(Delivered(s.calls), rate, s.now)
  {
    var pace := Pace(rate);
    if Delivered(s.calls) == 0 {
      ReachableInv(acts, pace, s);
      NothingFits(rate, s.now);
    } else {
      DeliveredFits(acts, rate, s);
    }
  }

  lemma FitsIff(bytes: nat, rate: nat, now: real)
    requires rate > 0
    ensures now >= Pace(rate)(bytes) <==> Fits(bytes, rate, now)
  {
    var q := bytes as real / rate as real;
    assert rate as real * q == bytes as real;
    if now < q {
      assert rate as real * (q - now) > 0.0;
    } else {
      assert rate as real * (now - q) >= 0.0;
    }
  }

  /** The other half of the bound: a call may return as soon as everything counted up to it fits the rate. */
  lemma ReturnsWhenItFits(s: System, bytes: nat, rate: nat, now: real)
    requires rate > 0 && bytes > 0 && now >= s.now
    ensures var s' := Do(s, Consume(bytes), Pace(rate));
      Enabled(s'.(now := now), Return(|s.calls|)) <==> Fits(Total(s.calls) + bytes, rate, now)
  {
    FitsIff(Total(s.calls) + bytes, rate, now);
  }
}
