/**
 The decay of the base rate between redemptions: fixed-point exponentiation by squaring, whole
 minutes only, and a fee-operation clock that moves only when at least a minute has passed.
 */
module FeeDecay {
  import opened Arithmetic
  import opened Protocol

  const MINUTE_DECAY_FACTOR: nat := 999037758833783000
  const SECONDS_IN_ONE_MINUTE: nat := 60
  const MAX_MINUTES: nat := 525600000
  const BETA: nat := 2

  // ---- Exponentiation ----

  /** Multiplies two 18-digit decimals, rounding to the nearest. */
  function DecMul(x: nat, y: nat): nat { (x * y + DECIMAL_PRECISION / 2) / DECIMAL_PRECISION }

  lemma {:induction false} PowerSquare(x: real, n: nat)
    ensures Power(x, 2 * n) == Power(x * x, n)
  {
    if n > 0 {
      PowerSquare(x, n - 1);
      assert Power(x, 2 * n) == x * (x * Power(x, 2 * n - 2));
    }
  }

  lemma PowerOdd(x: real, n: nat)
    ensures Power(x, 2 * n + 1) == x * Power(x * x, n)
  {
    PowerSquare(x, n);
  }

  lemma UnitProduct(x: real, y: real)
    requires 0.0 <= x <= 1.0 && 0.0 <= y <= 1.0
    ensures 0.0 <= x * y <= 1.0
  {
    PartAtMost(x, y);
  }

  /** `x` is within `e` units of the exact value `v`, which is at most one. */
  ghost predicate Near(x: nat, v: real, e: real) {
    x <= DECIMAL_PRECISION && 0.0 <= v <= 1.0
    && -e <= x as real - v * DECIMAL_PRECISION as real <= e
  }

  lemma NearestDivision(p: nat, d: nat, q: nat)
    requires d > 0 && d % 2 == 0 && q == (p + d / 2) / d
    ensures 2 * p - d <= 2 * (q * d) <= 2 * p + d
  {
    assert (p + d / 2) % d == p + d / 2 - q * d;
  }

  lemma RoundedRatio(p: real, q: real, d: real)
    requires d > 0.0 && 2.0 * p - d <= 2.0 * (q * d) <= 2.0 * p + d
    ensures -0.5 <= q - p / d <= 0.5
  {
    var r := p / d;
    assert r * d == p;
    var t := q - r;
    assert t * d == q * d - p;
    CancelLessEqual(d, t, 0.5);
    CancelLessEqual(d, -0.5, t);
  }

  lemma DecMulRounds(x: nat, y: nat)
    ensures -0.5 <= DecMul(x, y) as real - (x as real * y as real) / DECIMAL_PRECISION as real <= 0.5
  {
    var d, p, q := DECIMAL_PRECISION, x * y, DecMul(x, y);
    NearestDivision(p, d, q);
    RealProduct(x, y, p);
    RealProduct(q, d, q * d);
    RoundedRatio(p as real, q as real, d as real);
  }

  lemma DecMulAtMost(x: nat, y: nat)
    requires x <= DECIMAL_PRECISION && y <= DECIMAL_PRECISION
    ensures DecMul(x, y) <= DECIMAL_PRECISION
  {
    NatTimes(x, y, DECIMAL_PRECISION);
    QuotientAtMost(x * y, DECIMAL_PRECISION, DecMul(x, y), DECIMAL_PRECISION);
  }

  lemma NatTimes(x: nat, y: nat, d: nat)
    requires x <= d && y <= d
    ensures x * y <= d * d
  {
    assert x * y <= d * y;
    assert d * y <= d * d;
  }

  lemma QuotientAtMost(p: nat, d: nat, q: nat, m: nat)
    requires d > 1 && d % 2 == 0 && q == (p + d / 2) / d && p <= m * d
    ensures q <= m
  {
    NearestDivision(p, d, q);
    if q > m {
      Monotone(m + 1, q, d);
      assert false;
    }
  }

  /** Scaling an error by a factor of at most one does not make it larger. */
  lemma Damped(t: real, e: real, f: real)
    requires -e <= t <= e && 0.0 <= f <= 1.0
    ensures -e <= f * t <= e
  {
    DampedAbove(t, e, f);
    DampedAbove(-t, e, f);
    assert f * -t == -(f * t);
  }

  lemma DampedAbove(t: real, e: real, f: real)
    requires t <= e && 0.0 <= e && 0.0 <= f <= 1.0
    ensures f * t <= e
  {
    LessEqualTimes(t, e, f);
    PartAtMost(f, e);
  }

  lemma ErrorSplits(x: real, y: real, v: real, w: real, d: real, r: real, vw: real)
    requires r * d == x && vw == v * w
    ensures r * y - vw * d == r * (y - w * d) + w * (x - v * d)
  {
    assert r * (w * d) == w * x;
  }

  lemma ErrorBound(x: real, y: real, v: real, w: real, d: real, vw: real, a: real, b: real, exact: real)
    requires d > 0.0 && 0.0 <= x / d <= 1.0 && 0.0 <= w <= 1.0 && vw == v * w && exact == x * y / d
    requires -a <= x - v * d <= a && -b <= y - w * d <= b
    ensures -(a + b) <= exact - vw * d <= a + b
  {
    var r := x / d;
    assert r * d == x;
    QuotientOfProduct(x, y, d);
    ErrorSplits(x, y, v, w, d, r, vw);
    Damped(y - w * d, b, r);
    Damped(x - v * d, a, w);
  }

  /** Errors add up, plus half a unit for the rounding. */
  lemma DecMulNear(x: nat, v: real, a: real, y: nat, w: real, b: real, vw: real, e: real)
    requires Near(x, v, a) && Near(y, w, b) && vw == v * w && e == a + b + 0.5
    ensures Near(DecMul(x, y), vw, e)
  {
    DecMulRounds(x, y);
    DecMulAtMost(x, y);
    UnitProduct(v, w);
    UnitRatio(x);
    hide DecMul;
    var exact := x as real * y as real / DECIMAL_PRECISION as real;
    ErrorBound(x as real, y as real, v, w, DECIMAL_PRECISION as real, vw, a, b, exact);
    Rounded(DecMul(x, y), exact, vw, a + b);
  }

  lemma Rounded(q: nat, exact: real, v: real, e: real)
    requires q <= DECIMAL_PRECISION && 0.0 <= v <= 1.0 && -0.5 <= q as real - exact <= 0.5
    requires -e <= exact - v * DECIMAL_PRECISION as real <= e
    ensures Near(q, v, e + 0.5)
  {
  }

  lemma UnitRatio(x: nat)
    requires x <= DECIMAL_PRECISION
    ensures 0.0 <= x as real / DECIMAL_PRECISION as real <= 1.0
  {
  }

  /** What the error may still grow to when `n` factors `x` are left to multiply. */
  function Budget(n: nat, ex: real, ey: real): real { n as real * ex + ey + n as real / 2.0 }

  lemma BudgetEven(n: nat, ex: real, ey: real)
    requires n % 2 == 0
    ensures Budget(n / 2, ex + ex + 0.5, ey) == Budget(n, ex, ey)
  {
    var h := (n / 2) as real;
    assert n as real == 2.0 * h;
    assert h * (ex + ex + 0.5) == 2.0 * h * ex + h * 0.5;
  }

  lemma BudgetOdd(n: nat, ex: real, ey: real)
    requires n % 2 == 1
    ensures Budget((n - 1) / 2, ex + ex + 0.5, ex + ey + 0.5) == Budget(n, ex, ey)
  {
    var h := ((n - 1) / 2) as real;
    assert n as real == 2.0 * h + 1.0;
    assert h * (ex + ex + 0.5) == 2.0 * h * ex + h * 0.5;
  }

  lemma BudgetStart(n: nat)
    ensures Budget(n, 0.0, 0.0) == n as real / 2.0
    ensures Budget(1, 0.0, 0.0) == 0.5
  {
  }

  /** The value of the accumulator `w` and the `n` factors `v` still to be multiplied. */
  function Remaining(w: real, v: real, n: nat): real { w * Power(v, n) }

  lemma RemainingStart(v: real, n: nat)
    ensures Remaining(1.0, v, n) == Power(v, n)
  {
  }

  lemma RemainingEven(w: real, v: real, n: nat, vv: real)
    requires n % 2 == 0 && vv == v * v
    ensures Remaining(w, vv, n / 2) == Remaining(w, v, n)
  {
    PowerSquare(v, n / 2);
  }

  lemma RemainingOdd(w: real, v: real, n: nat, vv: real, vw: real)
    requires n % 2 == 1 && vv == v * v && vw == v * w
    ensures Remaining(vw, vv, (n - 1) / 2) == Remaining(w, v, n)
  {
    hide Power;
    PowerOdd(v, (n - 1) / 2);
    Regroup(v, w, Power(vv, (n - 1) / 2));
  }

  lemma Regroup(v: real, w: real, p: real)
    ensures w * (v * p) == (v * w) * p
  {
  }

  /** Exponentiation by squaring with rounded products: `y` accumulates, `n` factors `x` are left. */
  function Squaring(x: nat, y: nat, n: nat): nat
    decreases n
  {
    if n <= 1 then DecMul(x, y)
    else if n % 2 == 0 then Squaring(DecMul(x, x), y, n / 2)
    else Squaring(DecMul(x, x), DecMul(x, y), (n - 1) / 2)
  }

  function DecPowOf(base: nat, minutes: nat): nat {
    if minutes == 0 then DECIMAL_PRECISION else Squaring(base, DECIMAL_PRECISION, Min(minutes, MAX_MINUTES))
  }

  /** The exponent is capped, and the result is within half a unit per factor of the exact power. */
  method DecPow(base: nat, minutes: nat) returns (r: nat)
    requires base <= DECIMAL_PRECISION
    ensures r <= DECIMAL_PRECISION
    ensures var n := Min(minutes, MAX_MINUTES);
            Near(r, Power(base as real / DECIMAL_PRECISION as real, n), n as real / 2.0)
    ensures r == DecPowOf(base, minutes)
  {
    hide Near, DecMul, Power, Budget, Remaining;
    var n0 := Min(minutes, MAX_MINUTES);
    NearOne(base as real / DECIMAL_PRECISION as real);
    if n0 == 0 {
      return DECIMAL_PRECISION;
    }
    var y, x, n := DECIMAL_PRECISION, base, n0;
    ghost var exact := base as real / DECIMAL_PRECISION as real;
    ghost var w, v, ey, ex := 1.0, exact, 0.0, 0.0;
    NearBase(base);
    BudgetStart(n0);
    RemainingStart(exact, n0);
    while n > 1
      invariant n >= 1 && Near(x, v, ex) && Near(y, w, ey)
      invariant Squaring(x, y, n) == Squaring(base, DECIMAL_PRECISION, n0)
      invariant Remaining(w, v, n) == Power(exact, n0)
      invariant Budget(n, ex, ey) == n0 as real / 2.0
    {
      ghost var vv, twice := v * v, ex + ex + 0.5;
      DecMulNear(x, v, ex, x, v, ex, vv, twice);
      if n % 2 == 0 {
        BudgetEven(n, ex, ey);
        RemainingEven(w, v, n, vv);
        x, n := DecMul(x, x), n / 2;
      } else {
        ghost var vw, sum := v * w, ex + ey + 0.5;
        DecMulNear(x, v, ex, y, w, ey, vw, sum);
        BudgetOdd(n, ex, ey);
        RemainingOdd(w, v, n, vv, vw);
        y := DecMul(x, y);
        x, n := DecMul(x, x), (n - 1) / 2;
        w, ey := vw, sum;
      }
      v, ex := vv, twice;
    }
    ghost var result, error := Power(exact, n0), n0 as real / 2.0;
    LastFactor(v, w, ex, ey);
    DecMulNear(x, v, ex, y, w, ey, result, error);
    r := DecMul(x, y);
    NearBounds(r, result, error);
  }

  lemma NearOne(x: real)
    ensures Near(DECIMAL_PRECISION, 1.0, 0.0) && Power(x, 0) == 1.0
  {
  }

  lemma NearBase(base: nat)
    requires base <= DECIMAL_PRECISION
    ensures Near(base, base as real / DECIMAL_PRECISION as real, 0.0)
  {
  }

  lemma LastFactor(v: real, w: real, ex: real, ey: real)
    ensures Remaining(w, v, 1) == v * w && Budget(1, ex, ey) == ex + ey + 0.5
  {
    assert Power(v, 1) == v * Power(v, 0);
  }

  lemma NearBounds(x: nat, v: real, e: real)
    requires Near(x, v, e)
    ensures x <= DECIMAL_PRECISION
  {
  }
  // ---- The fee clock ----

  /** Times of fee operations since `t0`, in the order of the blocks. */
  predicate Ordered(t0: nat, times: seq<nat>) {
    (forall i | 0 <= i < |times| :: t0 <= times[i]) && forall i, j | 0 <= i < j < |times| :: times[i] <= times[j]
  }

  /** The clock after operations at `times`: it moves only when a minute or more has passed. */
  function Clock(t0: nat, times: seq<nat>): (clock: nat)
    requires Ordered(t0, times)
    ensures t0 <= clock && (times != [] ==> clock <= times[|times| - 1])
  {
    if times == [] then t0
    else
      var n := |times| - 1;
      var clock := Clock(t0, times[..n]);
      assert n > 0 ==> times[..n][n - 1] == times[n - 1] <= times[n];
      if times[n] - clock >= SECONDS_IN_ONE_MINUTE then times[n] else clock
  }

  /** The whole minutes of decay that the operations at `times` apply together. */
  function DecayMinutes(t0: nat, times: seq<nat>): nat
    requires Ordered(t0, times)
  {
    if times == [] then 0
    else
      var n := |times| - 1;
      assert n > 0 ==> times[..n][n - 1] == times[n - 1] <= times[n];
      DecayMinutes(t0, times[..n]) + (times[n] - Clock(t0, times[..n])) / SECONDS_IN_ONE_MINUTE
  }

  /** Between two moves of the clock pass at least 60 and fewer than 120 seconds per minute of decay. */
  lemma {:induction false} ClockPace(t0: nat, times: seq<nat>)
    requires Ordered(t0, times)
    ensures 60 * DecayMinutes(t0, times) <= Clock(t0, times) - t0 <= 120 * DecayMinutes(t0, times)
  {
    if times != [] {
      ClockPace(t0, times[..|times| - 1]);
    }
  }

  /** However the operations are timed, decay is not slowed below half its rate by more than a minute. */
  lemma {:induction false} DecayTiming(t0: nat, times: seq<nat>)
    requires times != [] && Ordered(t0, times)
    ensures var elapsed := times[|times| - 1] - t0;
            60 * DecayMinutes(t0, times) <= elapsed < 120 * DecayMinutes(t0, times) + 60
  {
    ClockPace(t0, times);
    ClockPace(t0, times[..|times| - 1]);
  }

  /** What a decayed rate may be: the exact decay, less at most half a unit per minute and one for truncation. */
  ghost predicate DecayedTo(rate: nat, minutes: nat, decayed: nat) {
    decayed <= rate
    && var n := Min(minutes, MAX_MINUTES);
       var exact := rate as real * Power(MINUTE_DECAY_FACTOR as real / DECIMAL_PRECISION as real, n);
       exact - n as real / 2.0 - 1.0 <= decayed as real <= exact + n as real / 2.0
  }

  lemma Truncation(rate: nat, factor: nat)
    requires rate <= DECIMAL_PRECISION && factor <= DECIMAL_PRECISION
    ensures var decayed := rate * factor / DECIMAL_PRECISION;
            decayed <= rate
            && var exact := rate as real * factor as real / DECIMAL_PRECISION as real;
               exact - 1.0 <= decayed as real <= exact
  {
    var d, p := DECIMAL_PRECISION, rate * factor;
    var q := p / d;
    assert q * d <= p < (q + 1) * d;
    RealProduct(rate, factor, p);
    Monotone(factor, d, rate);
    RatioBounds(p as real, q as real, d as real);
  }

  lemma RatioBounds(p: real, q: real, d: real)
    requires d > 0.0 && q * d <= p < (q + 1.0) * d
    ensures p / d - 1.0 <= q <= p / d
  {
    var r := p / d;
    assert r * d == p;
    CancelLessEqual(d, q, r);
    CancelLessEqual(d, r, q + 1.0);
  }

  lemma DecayError(rate: nat, factor: nat, v: real, e: real)
    requires rate <= DECIMAL_PRECISION && Near(factor, v, e)
    ensures var decayed := rate * factor / DECIMAL_PRECISION;
            decayed <= rate && rate as real * v - e - 1.0 <= decayed as real <= rate as real * v + e
  {
    Truncation(rate, factor);
    UnitRatio(rate);
    var d, r := DECIMAL_PRECISION as real, rate as real / DECIMAL_PRECISION as real;
    Damped(factor as real - v * d, e, r);
    QuotientOfProduct(rate as real, factor as real, d);
    assert r * (v * d) == rate as real * v;
  }

  lemma DecaysTo(rate: nat, minutes: nat, factor: nat)
    requires rate <= DECIMAL_PRECISION
    requires var n := Min(minutes, MAX_MINUTES);
             Near(factor, Power(MINUTE_DECAY_FACTOR as real / DECIMAL_PRECISION as real, n), n as real / 2.0)
    ensures DecayedTo(rate, minutes, rate * factor / DECIMAL_PRECISION)
  {
    hide Near, Power;
    var n := Min(minutes, MAX_MINUTES);
    DecayError(rate, factor, Power(MINUTE_DECAY_FACTOR as real / DECIMAL_PRECISION as real, n), n as real / 2.0);
  }

  function MinutesPassed(last: nat, now: nat): nat {
    if now < last then 0 else (now - last) / SECONDS_IN_ONE_MINUTE
  }

  /** The rate after a redemption: half the redeemed fraction on top, at most 100%. */
  function RaisedRate(rate: nat, amount: nat, supply: nat): nat
    requires supply > 0
  {
    Min(rate + amount * DECIMAL_PRECISION / supply / BETA, DECIMAL_PRECISION)
  }

  /** The rate rises by half the redeemed fraction, to the unit, unless that takes it to 100%. */
  predicate Raised(rate: nat, amount: nat, supply: nat, raised: nat) {
    if raised < DECIMAL_PRECISION then
      rate <= raised && BETA * (raised - rate) * supply <= amount * DECIMAL_PRECISION < BETA * (raised - rate + 1) * supply
    else
      raised == DECIMAL_PRECISION && (rate < DECIMAL_PRECISION ==> BETA * (DECIMAL_PRECISION - rate) * supply <= amount * DECIMAL_PRECISION)
  }

  lemma RaisedExactly(rate: nat, amount: nat, supply: nat)
    requires supply > 0
    ensures Raised(rate, amount, supply, RaisedRate(rate, amount, supply))
  {
    var p := amount * DECIMAL_PRECISION;
    var q := p / supply;
    var k := q / BETA;
    DivBounds(p, supply);
    DivBounds(q, BETA);
    HalfFraction(p, supply, q, k);
    if rate + k >= DECIMAL_PRECISION && rate < DECIMAL_PRECISION {
      Monotone(BETA * (DECIMAL_PRECISION - rate), BETA * k, supply);
    }
  }

  lemma HalfFraction(p: nat, supply: nat, q: nat, k: nat)
    requires q * supply <= p < (q + 1) * supply && k * BETA <= q < (k + 1) * BETA
    ensures BETA * k * supply <= p < BETA * (k + 1) * supply
  {
    Monotone(k * BETA, q, supply);
    Monotone(q + 1, (k + 1) * BETA, supply);
  }

  lemma RateRaised(rate: nat, amount: nat, supply: nat)
    requires supply > 0
    ensures RaisedRate(rate, amount, supply) <= DECIMAL_PRECISION
    ensures RaisedRate(rate, amount, supply) > 0 <==> rate > 0 || amount * DECIMAL_PRECISION >= BETA * supply
  {
    FractionBelow(amount * DECIMAL_PRECISION, supply);
  }

  /** The rate after some minutes without a fee operation. */
  function DecayedRate(rate: nat, minutes: nat): nat {
    rate * DecPowOf(MINUTE_DECAY_FACTOR, minutes) / DECIMAL_PRECISION
  }

  /** Redeeming a million wei out of a million LUSD once the rate is zero leaves it at zero. */
  lemma TinyRedemption(minutes: nat)
    ensures RaisedRate(DecayedRate(0, minutes), 1000000, 1000000 * DECIMAL_PRECISION) == 0
  {
    hide DecPowOf;
    assert DecayedRate(0, minutes) == 0;
  }

  /** Such a redemption, as the first one of a new system, fails the assertion. */
  method FailingRedemption(start: nat, now: nat) returns (aggregator: Aggregator, ok: bool)
    requires start <= now
    ensures fresh(aggregator) && aggregator.Valid() && aggregator.baseRate == 0 && !ok
  {
    hide DecayedRate, RaisedRate;
    aggregator := new Aggregator(start);
    TinyRedemption(MinutesPassed(start, now));
    ok := aggregator.UpdateBaseRateFromRedemption(now, 1000000, 1000000 * DECIMAL_PRECISION);
  }

  class Aggregator {
    var baseRate: nat
    var lastFeeOperationTime: nat
    ghost const startTime: nat
    ghost var times: seq<nat>

    ghost predicate Valid()
      reads this
    {
      baseRate <= DECIMAL_PRECISION && Ordered(startTime, times) && lastFeeOperationTime == Clock(startTime, times)
    }

    constructor (now: nat)
      ensures Valid() && baseRate == 0 && startTime == now && times == []
    {
      baseRate, lastFeeOperationTime, startTime, times := 0, now, now, [];
    }

    method CalcDecayedBaseRate(now: nat) returns (decayed: nat)
      requires Valid() && now >= lastFeeOperationTime
      ensures decayed == DecayedRate(baseRate, MinutesPassed(lastFeeOperationTime, now))
      ensures DecayedTo(baseRate, MinutesPassed(lastFeeOperationTime, now), decayed)
      ensures now - lastFeeOperationTime < SECONDS_IN_ONE_MINUTE ==> decayed == baseRate
    {
      hide Power, Clock, Near, DecayedTo;
      var minutesPassed := (now - lastFeeOperationTime) / SECONDS_IN_ONE_MINUTE;
      var decayFactor := DecPow(MINUTE_DECAY_FACTOR, minutesPassed);
      DecaysTo(baseRate, minutesPassed, decayFactor);
      decayed := baseRate * decayFactor / DECIMAL_PRECISION;
    }

    /**
     A redemption decays the rate, adds half the redeemed fraction, and moves the clock. It fails
     exactly without supply, or when the rate had decayed to zero and the redemption is too small to raise it.
     */
    method UpdateBaseRateFromRedemption(now: nat, amount: nat, supply: nat) returns (ok: bool)
      requires Valid() && Ordered(startTime, times + [now])
      modifies this
      ensures Valid() && old(lastFeeOperationTime) <= now
      ensures var decayed := DecayedRate(old(baseRate), MinutesPassed(old(lastFeeOperationTime), now));
              (ok <==> supply > 0 && (decayed > 0 || amount * DECIMAL_PRECISION >= BETA * supply))
              && (ok ==> baseRate == RaisedRate(decayed, amount, supply) && Raised(decayed, amount, supply, baseRate))
              && DecayedTo(old(baseRate), (now - old(lastFeeOperationTime)) / SECONDS_IN_ONE_MINUTE, decayed)
      ensures ok ==> (DecayMinutes(startTime, times)
                         == old(DecayMinutes(startTime, times)) + (now - old(lastFeeOperationTime)) / SECONDS_IN_ONE_MINUTE)
      ensures if ok then 0 < baseRate && times == old(times) + [now]
                         && (var elapsed := now - startTime;
                             60 * DecayMinutes(startTime, times) <= elapsed < 120 * DecayMinutes(startTime, times) + 60)
              else unchanged(this)
    {
      hide DecayedTo, RaisedRate, Raised, DecayedRate, Ordered, Power;
      SameBefore(startTime, times, now);
      MinutesAdd(startTime, times, now);
      hide DecayMinutes;
      var rate := CalcDecayedBaseRate(now);
      if supply == 0 {
        return false;
      }
      RateRaised(rate, amount, supply);
      RaisedExactly(rate, amount, supply);
      var newBaseRate := RaisedRate(rate, amount, supply);
      if newBaseRate == 0 {
        return false;
      }
      baseRate := newBaseRate;
      if now - lastFeeOperationTime >= SECONDS_IN_ONE_MINUTE {
        lastFeeOperationTime := now;
      }
      times := times + [now];
      DecayTiming(startTime, times);
      ok := true;
    }
  }

  lemma MinutesAdd(t0: nat, times: seq<nat>, now: nat)
    requires Ordered(t0, times) && Ordered(t0, times + [now])
    ensures DecayMinutes(t0, times + [now]) == DecayMinutes(t0, times) + (now - Clock(t0, times)) / SECONDS_IN_ONE_MINUTE
  {
    SameBefore(t0, times, now);
  }

  lemma SameBefore(t0: nat, times: seq<nat>, now: nat)
    requires Ordered(t0, times) && Ordered(t0, times + [now])
    ensures (times + [now])[..|times|] == times && Clock(t0, times) <= now
  {
    var all := times + [now];
    assert all[|times|] == now;
    if times != [] {
      assert all[|times| - 1] == times[|times| - 1];
    }
  }

  lemma FractionBelow(p: nat, d: nat)
    requires d > 0
    ensures p / d / BETA == 0 <==> p < BETA * d
  {
    var q := p / d;
    assert q * d <= p < (q + 1) * d;
    if p < BETA * d {
      CancelLess(q, BETA, d);
    } else {
      CancelLess(BETA, q + 1, d);
    }
  }

}
