/** Retry arithmetic: exponential backoff with jitter, and the retry loop built on it. */
module Backoff {
  import opened Wrappers

  function Pow2(n: nat): (p: nat)
    ensures p >= 1
  {
    if n == 0 then 1 else 2 * Pow2(n - 1)
  }

  /** Milliseconds waited before jitter is added. */
  function Exp(attempt: int, baseMs: nat, maxMs: nat): nat {
    var uncapped := baseMs * Pow2(if attempt > 1 then attempt - 1 else 0);
    if maxMs < uncapped then maxMs else uncapped
  }

  /** `Math.round`: halves go up. */
  function Round(x: real): int {
    (x + 0.5).Floor
  }

  /** A random draw lies in [0, 1). */
  type Draw = u: real | 0.0 <= u < 1.0 witness 0.0

  const JITTER_RATIO: real := 0.2

  function JitteredDelay(attempt: int, baseMs: nat, maxMs: nat, jitterRatio: real, u: Draw): int {
    var exp := Exp(attempt, baseMs, maxMs) as real;
    Round(exp + exp * jitterRatio * u)
  }

  function Delay(attempt: int, baseMs: nat, maxMs: nat, u: Draw): int {
    JitteredDelay(attempt, baseMs, maxMs, JITTER_RATIO, u)
  }

  lemma ScaleBounds(x: real, u: real)
    requires 0.0 <= x && 0.0 <= u <= 1.0
    ensures 0.0 <= x * u <= x
  {
  }

  lemma ProductNonNegative(x: real, y: real)
    requires 0.0 <= x && 0.0 <= y
    ensures 0.0 <= x * y
  {
  }

  lemma Distribute(k: int, x: int, y: int)
    ensures k * (x + y) == k * x + k * y
    ensures (x + y) * k == x * k + y * k
  {
  }

  /** Jitter only ever lengthens the wait, and by no more than its ratio. */
  lemma JitteredDelayBounds(attempt: int, baseMs: nat, maxMs: nat, jitterRatio: real, u: Draw)
    requires jitterRatio >= 0.0
    ensures var exp := Exp(attempt, baseMs, maxMs);
      exp <= JitteredDelay(attempt, baseMs, maxMs, jitterRatio, u) <= Round(exp as real + exp as real * jitterRatio)
  {
    var exp := Exp(attempt, baseMs, maxMs);
    var span := exp as real * jitterRatio;
    ProductNonNegative(exp as real, jitterRatio);
    ScaleBounds(span, u);
    RoundBetween(exp, span * u, span);
  }

  lemma RoundBetween(n: nat, x: real, y: real)
    requires 0.0 <= x <= y
    ensures n <= Round(n as real + x) <= Round(n as real + y)
  {
  }

  lemma DelayBounds(attempt: int, baseMs: nat, maxMs: nat, u: Draw)
    ensures var exp := Exp(attempt, baseMs, maxMs);
      exp <= Delay(attempt, baseMs, maxMs, u) <= Round(exp as real + exp as real * 0.2)
  {
    JitteredDelayBounds(attempt, baseMs, maxMs, JITTER_RATIO, u);
  }

  /** The wait at the lowest draw: the base, doubled for each further attempt, until the cap. */
  lemma DelayDoubles(attempt: int, baseMs: nat, maxMs: nat)
    ensures attempt <= 1 ==> Delay(attempt, baseMs, maxMs, 0.0) == if baseMs <= maxMs then baseMs else maxMs
    ensures attempt >= 1 ==>
      var doubled := 2 * Delay(attempt, baseMs, maxMs, 0.0);
      Delay(attempt + 1, baseMs, maxMs, 0.0) == if doubled <= maxMs then doubled else maxMs
  {
    assert Pow2(0) == 1;
    UnjitteredDelay(attempt, baseMs, maxMs);
    UnjitteredDelay(attempt + 1, baseMs, maxMs);
    if attempt >= 1 {
      assert Pow2(attempt) == 2 * Pow2(attempt - 1);
      Distribute(baseMs, Pow2(attempt - 1), Pow2(attempt - 1));
    }
  }

  /** At any other draw it is the nearest millisecond, halves going up, to that and the draw's part
      of a fifth of it. */
  lemma DelayIsNearest(attempt: int, baseMs: nat, maxMs: nat, u: Draw)
    ensures var least := Delay(attempt, baseMs, maxMs, 0.0) as real;
      var exact := least + (least / 5.0) * u;
      exact - 0.5 < Delay(attempt, baseMs, maxMs, u) as real <= exact + 0.5
  {
    UnjitteredDelay(attempt, baseMs, maxMs);
    var least := Exp(attempt, baseMs, maxMs) as real;
    DelayIs(attempt, baseMs, maxMs, least * 0.2, u);
    assert least / 5.0 == least * 0.2;
  }

  lemma UnjitteredDelay(attempt: int, baseMs: nat, maxMs: nat)
    ensures Delay(attempt, baseMs, maxMs, 0.0) == Exp(attempt, baseMs, maxMs)
  {
  }

  lemma Quotient(x: real, y: real) returns (u: Draw)
    requires 0.0 <= x < y
    ensures y * u == x
  {
    assert 0.0 <= x / y < 1.0;
    u := x / y;
  }

  lemma ScaleBelow(x: real, u: real, bound: real)
    requires 0.0 < x <= bound && u < 1.0
    ensures x * u < bound
  {
    var rest := x * (1.0 - u);
    assert rest > 0.0;
    assert x * u == x - rest;
  }

  lemma RoundAbove(n: nat, x: real, m: nat)
    ensures Round(n as real + x) > m <==> x >= (m - n) as real + 0.5
  {
  }

  lemma DelayIs(attempt: int, baseMs: nat, maxMs: nat, span: real, u: Draw)
    requires span == Exp(attempt, baseMs, maxMs) as real * 0.2
    ensures Delay(attempt, baseMs, maxMs, u) == Round(Exp(attempt, baseMs, maxMs) as real + span * u)
  {
  }

  lemma OvershotBySome(attempt: int, baseMs: nat, maxMs: nat, exp: nat, span: real) returns (u: Draw)
    requires exp == Exp(attempt, baseMs, maxMs) && span == exp as real * 0.2
    requires (maxMs - exp) as real + 0.5 < span
    ensures Delay(attempt, baseMs, maxMs, u) > maxMs
  {
    u := Quotient((maxMs - exp) as real + 0.5, span);
    RoundAbove(exp, span * u, maxMs);
    DelayIs(attempt, baseMs, maxMs, span, u);
  }

  lemma OvershotByNone(attempt: int, baseMs: nat, maxMs: nat, exp: nat, span: real, u: Draw)
    requires exp == Exp(attempt, baseMs, maxMs) && span == exp as real * 0.2
    requires (maxMs - exp) as real + 0.5 >= span
    ensures Delay(attempt, baseMs, maxMs, u) <= maxMs
  {
    if exp > 0 { ScaleBelow(span, u, (maxMs - exp) as real + 0.5); }
    RoundAbove(exp, span * u, maxMs);
    DelayIs(attempt, baseMs, maxMs, span, u);
  }

  /** The cap is on the wait before jitter: some draw makes the wait longer than maxMs exactly when
      a fifth more than Exp, rounded, reaches past maxMs. Exp need not have reached the cap. */
  lemma CapIsOvershotIff(attempt: int, baseMs: nat, maxMs: nat)
    ensures (exists u: Draw :: Delay(attempt, baseMs, maxMs, u) > maxMs) <==>
      12 * Exp(attempt, baseMs, maxMs) > 10 * maxMs + 5
  {
    var exp := Exp(attempt, baseMs, maxMs);
    var span := exp as real * 0.2;
    if 12 * exp > 10 * maxMs + 5 {
      var u := OvershotBySome(attempt, baseMs, maxMs, exp, span);
    } else {
      forall u: Draw ensures Delay(attempt, baseMs, maxMs, u) <= maxMs {
        OvershotByNone(attempt, baseMs, maxMs, exp, span, u);
      }
    }
  }

  /** Once capped, that is from a cap of three milliseconds on. */
  lemma CappedWaitOvershootsIff(attempt: int, baseMs: nat, maxMs: nat)
    requires Exp(attempt, baseMs, maxMs) == maxMs
    ensures (exists u: Draw :: Delay(attempt, baseMs, maxMs, u) > maxMs) <==> maxMs >= 3
  {
    CapIsOvershotIff(attempt, baseMs, maxMs);
  }

  /** A first wait of 95 ms, below the cap of 100, can last 112. */
  lemma UncappedWaitOvershoots()
    ensures Exp(1, 95, 100) == 95 && Delay(1, 95, 100, 0.9) == 112
  {
    assert Pow2(0) == 1;
  }

  /** While the cap is not reached, every later attempt waits strictly longer, whatever is drawn. */
  lemma DelayGrows(attempt: int, baseMs: nat, maxMs: nat, u: Draw, v: Draw)
    requires attempt >= 1 && baseMs >= 1
    requires baseMs * Pow2(attempt) <= maxMs
    ensures Delay(attempt, baseMs, maxMs, u) < Delay(attempt + 1, baseMs, maxMs, v)
  {
    var p := Pow2(attempt - 1);
    Distribute(baseMs, p, p);
    Distribute(p, baseMs - 1, 1);
    ProductNonNegative(p as real, (baseMs - 1) as real);
    DelayBounds(attempt, baseMs, maxMs, u);
    DelayBounds(attempt + 1, baseMs, maxMs, v);
    JitterIsLessThanDouble(baseMs * p);
  }

  lemma JitterIsLessThanDouble(exp: nat)
    requires exp >= 1
    ensures Round(exp as real + exp as real * 0.2) < 2 * exp
  {
  }

  /** Total wait of attempts 1 to |us|. */
  function TotalDelay(us: seq<Draw>, baseMs: nat, maxMs: nat): int {
    if us == [] then 0
    else TotalDelay(us[..|us| - 1], baseMs, maxMs) + Delay(|us|, baseMs, maxMs, us[|us| - 1])
  }

  /** The wait itself, without the rounding: one and a fifth of Exp, and half a millisecond. */
  lemma DelayAtMost(attempt: nat, baseMs: nat, maxMs: nat, u: Draw)
    requires attempt >= 1
    ensures Delay(attempt, baseMs, maxMs, u) as real <= 1.2 * (baseMs * Pow2(attempt - 1)) as real + 0.5
    ensures Delay(attempt, baseMs, maxMs, u) as real <= 1.2 * maxMs as real + 0.5
  {
    DelayBounds(attempt, baseMs, maxMs, u);
  }

  lemma {:induction false} TotalDelayBound(us: seq<Draw>, baseMs: nat, maxMs: nat)
    ensures TotalDelay(us, baseMs, maxMs) as real
         <= 1.2 * (baseMs * (Pow2(|us|) - 1)) as real + 0.5 * |us| as real
    ensures TotalDelay(us, baseMs, maxMs) as real <= 1.2 * (|us| * maxMs) as real + 0.5 * |us| as real
  {
    var n := |us|;
    if n > 0 {
      TotalDelayBound(us[..n - 1], baseMs, maxMs);
      DelayAtMost(n, baseMs, maxMs, us[n - 1]);
      Distribute(baseMs, Pow2(n - 1) - 1, Pow2(n - 1));
      Distribute(maxMs, n - 1, 1);
    }
  }

  /** withRetry, with the awaited function, its retry test and the jitter supplied as inputs:
      `fn(k)` is the outcome of call number k, counted from 0. The error is None when the loop
      never ran, where the source throws an undefined lastError. */
  method WithRetry<T, E>(fn: nat -> Result<T, E>, retryOn: E -> bool, maxAttempts: int,
                         baseMs: nat, maxMs: nat, draw: nat -> Draw)
    returns (outcome: Result<T, Option<E>>, calls: nat, sleeps: seq<int>)
    ensures calls == 0 <==> maxAttempts < 1
    ensures calls == 0 ==> outcome == Err(None) && sleeps == []
    ensures calls > 0 ==> calls <= maxAttempts && |sleeps| == calls - 1
    ensures forall k :: 0 <= k < calls - 1 ==> fn(k).Err? && retryOn(fn(k).error)
    ensures forall k :: 0 <= k < calls - 1 ==> sleeps[k] == Delay(k + 1, baseMs, maxMs, draw(k))
    ensures 0 < calls < maxAttempts ==> fn(calls - 1).Ok? || !retryOn(fn(calls - 1).error)
    ensures calls > 0 ==> outcome == match fn(calls - 1) case Ok(v) => Ok(v) case Err(e) => Err(Some(e))
  {
    var attempt := 1;
    calls, sleeps := 0, [];
    while attempt <= maxAttempts
      invariant 1 <= attempt && calls == attempt - 1 == |sleeps|
      invariant attempt == 1 || attempt <= maxAttempts
      invariant forall k :: 0 <= k < calls ==> fn(k).Err? && retryOn(fn(k).error)
      invariant forall k :: 0 <= k < calls ==> sleeps[k] == Delay(k + 1, baseMs, maxMs, draw(k))
    {
      var result := fn(calls);
      calls := calls + 1;
      match result {
        case Ok(value) =>
          return Ok(value), calls, sleeps;
        case Err(error) =>
          if !retryOn(error) || attempt == maxAttempts {
            return Err(Some(error)), calls, sleeps;
          }
          sleeps := sleeps + [Delay(attempt, baseMs, maxMs, draw(calls - 1))];
      }
      attempt := attempt + 1;
    }
    outcome := Err(None);
  }
}
