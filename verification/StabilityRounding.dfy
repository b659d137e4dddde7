/**
 The stability pool's product in wei: every division truncates, and the error of the last loss is
 fed back into the next one. `claims` is what all compounded deposits are together before each is
 rounded down; the question is by how much it can exceed the LUSD in the pool.
 */
module StabilityRounding {
  import opened Accounts
  import opened Arithmetic
  import opened Protocol

  const SCALE_FACTOR: nat := 1000000000

  function Positive(x: int): nat { if x < 0 then 0 else x }

  /** What an offset has to take from the deposits, corrected by what the last one took too much. */
  function LossNumerator(debt: nat, lastError: nat): nat { Positive(debt * DECIMAL_PRECISION - lastError) }

  function LossPerUnit(debt: nat, lastError: nat, total: nat): nat
    requires total > 0
  {
    LossNumerator(debt, lastError) / total + 1
  }

  /** What the loss per unit takes too much. */
  function LossError(debt: nat, lastError: nat, total: nat): (error: nat)
    requires debt < total
    ensures error <= total
  {
    LossSplits(debt, lastError, total);
    LossPerUnit(debt, lastError, total) * total - LossNumerator(debt, lastError)
  }

  function LossFactor(debt: nat, lastError: nat, total: nat): nat
    requires debt < total
  {
    LossSplits(debt, lastError, total);
    DECIMAL_PRECISION - LossPerUnit(debt, lastError, total)
  }

  function GainPerUnit(gain: nat, lastError: nat, total: nat): nat
    requires total > 0
  {
    (gain * DECIMAL_PRECISION + lastError) / total
  }

  function GainError(gain: nat, lastError: nat, total: nat): (error: nat)
    requires total > 0
    ensures error < total
  {
    (gain * DECIMAL_PRECISION + lastError) % total
  }

  /** The error is what the gain per unit leaves of the numerator. */
  lemma GainSplits(gain: nat, lastError: nat, total: nat)
    requires total > 0
    ensures GainPerUnit(gain, lastError, total) * total + GainError(gain, lastError, total) == gain * DECIMAL_PRECISION + lastError
  {
  }

  function RaisedProduct(p: nat, perUnit: nat): nat { p * (DECIMAL_PRECISION + perUnit) / DECIMAL_PRECISION }

  /** A fee raises the product by its gain per unit, to within one unit. */
  predicate RaisedBy(p: nat, perUnit: nat, raised: nat) {
    raised * DECIMAL_PRECISION <= p * (DECIMAL_PRECISION + perUnit) < (raised + 1) * DECIMAL_PRECISION
  }

  lemma RaisedExactly(p: nat, perUnit: nat)
    ensures RaisedBy(p, perUnit, RaisedProduct(p, perUnit))
  {
    DivBounds(p * (DECIMAL_PRECISION + perUnit), DECIMAL_PRECISION);
  }

  /** The new product with the number of scale changes it took. */
  function ScaledProduct(p: nat, factor: nat): (nat, nat) {
    if p * factor / DECIMAL_PRECISION >= SCALE_FACTOR then (p * factor / DECIMAL_PRECISION, 0)
    else if p * factor * SCALE_FACTOR / DECIMAL_PRECISION >= SCALE_FACTOR then (p * factor * SCALE_FACTOR / DECIMAL_PRECISION, 1)
    else (p * factor * (SCALE_FACTOR * SCALE_FACTOR) / DECIMAL_PRECISION, 2)
  }

  /**
   The product after a loss, rounded down on its scale: it moves on by one scale exactly when it falls below a
   billionth, and by two exactly when it would fall below that again.
   */
  predicate MovesScale(p: nat, factor: nat, newP: nat, scales: nat) {
    if p * factor >= SCALE_FACTOR * DECIMAL_PRECISION then
      scales == 0 && newP * DECIMAL_PRECISION <= p * factor < (newP + 1) * DECIMAL_PRECISION
    else if p * factor * SCALE_FACTOR >= SCALE_FACTOR * DECIMAL_PRECISION then
      scales == 1 && newP * DECIMAL_PRECISION <= p * factor * SCALE_FACTOR < (newP + 1) * DECIMAL_PRECISION
    else
      scales == 2 && newP == p * factor
  }

  lemma ScaledExactly(p: nat, factor: nat)
    ensures MovesScale(p, factor, ScaledProduct(p, factor).0, ScaledProduct(p, factor).1)
  {
    DivBounds(p * factor, DECIMAL_PRECISION);
    DivBounds(p * factor * SCALE_FACTOR, DECIMAL_PRECISION);
    assert p * factor * (SCALE_FACTOR * SCALE_FACTOR) == p * factor * DECIMAL_PRECISION;
  }

  function ScalePow(k: nat): (r: nat)
    ensures r > 0
  {
    if k == 0 then 1 else SCALE_FACTOR * ScalePow(k - 1)
  }

  /** Claims follow the product: a deposit with snapshot `p` is worth `newP / p` of what it was, per scale change a billionth. */
  ghost function ClaimsAfter(claims: real, p: nat, newP: nat, scales: nat): real
    requires p > 0
  {
    claims * (newP as real / (p * ScalePow(scales)) as real)
  }

  /** Claims and the fed-back error exceed the pool by at most `slack`, in units of 1e-18 wei. */
  ghost predicate Covered(claims: real, error: nat, total: nat, slack: real) {
    claims * DECIMAL_PRECISION as real + error as real <= (total * DECIMAL_PRECISION) as real + slack
  }

  /** Claims scaled by `factor` / 1e18, or less. */
  ghost predicate Scaled(claims: real, factor: nat, rest: real) {
    rest >= 0.0 && rest * DECIMAL_PRECISION as real <= claims * factor as real
  }

  // ---- arithmetic ----

  lemma QuotientAtMost(n: nat, d: nat, f: nat, e: nat)
    requires d > 0 && e > 0 && n * e <= f * d
    ensures 0.0 <= n as real / d as real <= f as real / e as real
  {
    var q, r := n as real / d as real, f as real / e as real;
    assert q * d as real == n as real && r * e as real == f as real;
    RealProduct(n, e, n * e);
    RealProduct(f, d, f * d);
    QuotientOrder(q, r, n as real, d as real, f as real, e as real);
  }

  lemma QuotientOrder(q: real, r: real, n: real, d: real, f: real, e: real)
    requires d > 0.0 && e > 0.0 && n >= 0.0 && q * d == n && r * e == f && n * e <= f * d
    ensures 0.0 <= q <= r
  {
    var w := d * e;
    PositiveProduct(d, e);
    CrossTimes(q, d, e, n);
    CrossTimes(r, e, d, f);
    CancelLessEqual(w, q, r);
    CancelLessEqual(d, 0.0, q);
  }

  lemma CrossTimes(q: real, d: real, e: real, n: real)
    requires q * d == n
    ensures q * (d * e) == n * e && q * (e * d) == n * e
  {
    assert q * (d * e) == (q * d) * e;
  }

  lemma Regroup(p: nat, f: nat, s: nat)
    ensures p * f * s == f * (p * s)
  {
  }

  /** A truncated product never overstates the factor, whatever the scale. */
  lemma ProductRoundsDown(p: nat, factor: nat)
    requires p > 0
    ensures var r := ScaledProduct(p, factor);
            0.0 <= r.0 as real / (p * ScalePow(r.1)) as real <= factor as real / DECIMAL_PRECISION as real
  {
    var r := ScaledProduct(p, factor);
    assert ScalePow(0) == 1 && ScalePow(1) == SCALE_FACTOR && ScalePow(2) == SCALE_FACTOR * SCALE_FACTOR;
    DivBounds(p * factor * ScalePow(r.1), DECIMAL_PRECISION);
    Regroup(p, factor, ScalePow(r.1));
    QuotientAtMost(r.0, p * ScalePow(r.1), factor, DECIMAL_PRECISION);
  }

  /** The loss and the new error split the corrected debt exactly. */
  lemma LossSplits(debt: nat, lastError: nat, total: nat)
    requires debt < total
    ensures var loss, num := LossPerUnit(debt, lastError, total), LossNumerator(debt, lastError);
            loss <= DECIMAL_PRECISION && num < loss * total <= num + total && num >= debt * DECIMAL_PRECISION - lastError
  {
    var num := LossNumerator(debt, lastError);
    var q := num / total;
    DivBounds(num, total);
    assert (q + 1) * total == q * total + total;
    CancelLess(q, DECIMAL_PRECISION, total);
  }

  /** Claims of at most `u / e` shrink by the loss on every unit of the pool at least. */
  lemma LossOnClaims(c: real, u: real, e: real, l: real, d: real)
    requires e > 0.0 && 0.0 <= l <= e && c * e <= u && u >= d * e
    ensures c * (e - l) <= u - d * l
  {
    var x := u / e;
    assert x * e == u;
    CancelLessEqual(e, c, x);
    CancelLessEqual(e, d, x);
    LessEqualTimes(c, x, e - l);
    LessEqualTimes(d, x, l);
    assert x * (e - l) == u - x * l;
  }

  /** Gains on claims of at most `u / e`. */
  lemma GainOnClaims(c: real, u: real, e: real, g: real, d: real, extra: real)
    requires e > 0.0 && g >= 0.0 && c * e <= u && u == d * e + extra
    ensures c * (e + g) <= u + d * g + extra * (g / e)
  {
    var x, h := u / e, g / e;
    assert x * e == u && h * e == g;
    CancelLessEqual(e, c, x);
    LessEqualTimes(c, x, e + g);
    assert x * (e + g) == u + x * g;
    assert x * g == u * h;
    assert u * h == d * (h * e) + extra * h;
  }

  /** An offset keeps the claims covered, and its new error is at most the total before it. */
  lemma OffsetCovered(claims: real, error: nat, total: nat, slack: real, debt: nat, newError: nat, rest: real)
    requires claims >= 0.0 && debt < total && error as real <= slack && Covered(claims, error, total, slack)
    requires newError == LossError(debt, error, total) && Scaled(claims, LossFactor(debt, error, total), rest)
    ensures Covered(rest, newError, total - debt, slack)
  {
    var e, loss, num := DECIMAL_PRECISION, LossPerUnit(debt, error, total), LossNumerator(debt, error);
    LossSplits(debt, error, total);
    assert newError == loss * total - num && LossFactor(debt, error, total) == e - loss;
    hide LossPerUnit, LossNumerator, LossError, LossFactor;
    var u := (total * e) as real + slack - error as real;
    RealProduct(total, e, total * e);
    RealProduct(total, loss, loss * total);
    LossOnClaims(claims, u, e as real, loss as real, total as real);
    assert (total - debt) * e == total * e - debt * e;
  }

  lemma FeesCovered(claims: real, error: nat, total: nat, slack: real, gain: nat, gainError: nat, perUnit: nat, rest: real, more: real)
    requires claims >= 0.0 && total > 0 && error as real <= slack && Covered(claims, error, total, slack)
    requires perUnit == GainPerUnit(gain, gainError, total)
    requires Scaled(claims, DECIMAL_PRECISION + perUnit, rest)
    requires more == slack * (perUnit as real / DECIMAL_PRECISION as real)
    ensures more >= 0.0 && Covered(rest, error, total + gain, slack + gainError as real + more)
  {
    var e, extra := DECIMAL_PRECISION, slack - error as real;
    GainSplits(gain, gainError, total);
    RealProduct(total, perUnit, perUnit * total);
    RealProduct(total, e, total * e);
    ClaimsGrow(claims, rest, (total * e) as real + extra, e as real, perUnit as real, total as real, extra, slack, more);
    assert (total + gain) * e == total * e + gain * e;
  }

  lemma ClaimsGrow(c: real, rest: real, u: real, e: real, g: real, d: real, extra: real, slack: real, more: real)
    requires e > 0.0 && g >= 0.0 && c * e <= u && u == d * e + extra && rest * e <= c * (e + g)
    requires 0.0 <= extra <= slack && more == slack * (g / e)
    ensures more >= 0.0 && rest * e <= u + d * g + more
  {
    var h := g / e;
    assert h * e == g;
    CancelLessEqual(e, 0.0, h);
    LessEqualTimes(extra, slack, h);
    LessEqualTimes(0.0, slack, h);
    GainOnClaims(c, u, e, g, d, extra);
  }

  /** The whole offset, seen from the claims. */
  lemma OffsetStep(claims: real, error: nat, total: nat, slack: real, debt: nat, p: nat, rest: real, newSlack: real)
    requires p > 0 && claims >= 0.0 && debt < total && error as real <= slack && Covered(claims, error, total, slack)
    requires newSlack == MaxReal(slack, total as real)
    requires var product := ScaledProduct(p, LossFactor(debt, error, total));
             rest == ClaimsAfter(claims, p, product.0, product.1)
    ensures Scaled(claims, LossFactor(debt, error, total), rest)
    ensures Covered(rest, LossError(debt, error, total), total - debt, newSlack)
  {
    hide LossNumerator, LossPerUnit, LossError, LossFactor, ScaledProduct, ScalePow, ClaimsAfter, Covered, Scaled;
    ProductScales(claims, p, LossFactor(debt, error, total), rest);
    MoreSlack(claims, error, total, slack, newSlack);
    OffsetCovered(claims, error, total, newSlack, debt, LossError(debt, error, total), rest);
  }

  lemma ProductScales(claims: real, p: nat, factor: nat, rest: real)
    requires p > 0 && claims >= 0.0
    requires var product := ScaledProduct(p, factor); rest == ClaimsAfter(claims, p, product.0, product.1)
    ensures Scaled(claims, factor, rest)
  {
    hide ScaledProduct, ScalePow;
    var product := ScaledProduct(p, factor);
    ProductRoundsDown(p, factor);
    Shrunk(claims, product.0 as real / (p * ScalePow(product.1)) as real, factor, rest);
  }

  /** A fee scales the slack like a deposit, and adds the gain error it uses up. */
  ghost predicate GrownSlack(slack: real, newSlack: real, gainError: nat, perUnit: nat) {
    newSlack == slack + gainError as real + slack * (perUnit as real / DECIMAL_PRECISION as real)
  }

  lemma FeesStep(claims: real, error: nat, total: nat, slack: real, gain: nat, gainError: nat, p: nat, perUnit: nat, newP: nat)
    returns (rest: real, newSlack: real)
    requires p > 0 && claims >= 0.0 && total > 0 && error as real <= slack && Covered(claims, error, total, slack)
    requires perUnit == GainPerUnit(gain, gainError, total)
    requires newP == RaisedProduct(p, perUnit)
    ensures rest == ClaimsAfter(claims, p, newP, 0)
    ensures newP >= p && rest >= 0.0 && newSlack >= slack && Covered(rest, error, total + gain, newSlack)
    ensures GrownSlack(slack, newSlack, gainError, perUnit)
    ensures Scaled(claims, DECIMAL_PRECISION + perUnit, rest)
  {
    hide Covered, Scaled;
    var factor := DECIMAL_PRECISION + perUnit;
    assert ScalePow(0) == 1;
    GrownProduct(p, factor, newP);
    rest := claims * (newP as real / p as real);
    Shrunk(claims, newP as real / p as real, factor, rest);
    var more := slack * (perUnit as real / DECIMAL_PRECISION as real);
    FeesCovered(claims, error, total, slack, gain, gainError, perUnit, rest, more);
    newSlack := slack + gainError as real + more;
  }

  // ---- depositors ----

  /** A deposit as recorded, with the product and the scale at that time. */
  datatype Deposit = Deposit(initial: nat, P: nat, scale: nat)

  /** What the contract pays: truncated, nothing after two scale changes or below a billionth. */
  function Compounded(d: Deposit, p: nat, scale: nat): nat
    requires d.P > 0 && d.scale <= scale
  {
    var stake := if scale == d.scale then d.initial * p / d.P
                 else if scale == d.scale + 1 then d.initial * p / d.P / SCALE_FACTOR
                 else 0;
    if stake < d.initial / SCALE_FACTOR then 0 else stake
  }

  /** What the snapshots stand for before anything is truncated. */
  ghost function Worth(d: Deposit, p: nat, scale: nat): real
    requires d.P > 0 && d.scale <= scale
  {
    Fraction(d.initial, p, d.P * ScalePow(scale - d.scale))
  }

  ghost function Fraction(initial: nat, p: nat, snapshot: nat): real
    requires snapshot > 0
  {
    initial as real * (p as real / snapshot as real)
  }

  lemma FractionFloor(initial: nat, p: nat, snapshot: nat, stake: nat)
    requires snapshot > 0 && stake * snapshot <= initial * p
    ensures 0.0 <= stake as real <= Fraction(initial, p, snapshot)
  {
    var x := p as real / snapshot as real;
    assert x * snapshot as real == p as real;
    RealProduct(initial, p, initial * p);
    RealProduct(stake, snapshot, stake * snapshot);
    assert initial as real * x * snapshot as real == initial as real * p as real;
    CancelLessEqual(snapshot as real, stake as real, initial as real * x);
  }

  lemma FractionNonNegative(initial: nat, p: nat, snapshot: nat)
    requires snapshot > 0
    ensures Fraction(initial, p, snapshot) >= 0.0
  {
    assert 0 * snapshot <= initial * p;
    FractionFloor(initial, p, snapshot, 0);
  }

  /** No deposit is paid more than its worth. */
  lemma CompoundedAtMost(d: Deposit, p: nat, scale: nat)
    requires d.P > 0 && d.scale <= scale
    ensures 0.0 <= Compounded(d, p, scale) as real <= Worth(d, p, scale)
  {
    FractionNonNegative(d.initial, p, d.P * ScalePow(scale - d.scale));
    hide Fraction;
    if scale == d.scale {
      FloorAtMost(d.initial, p, d.P, 1, d.P * ScalePow(0));
    } else if scale == d.scale + 1 {
      FloorAtMost(d.initial, p, d.P, SCALE_FACTOR, d.P * ScalePow(1));
    }
  }

  /**
   On its own scale and on the next, what is paid is the worth of the deposit in whole wei, unless that is less than
   a billionth of what was deposited; then, and after two scale changes, it is nothing.
   */
  lemma CompoundedIsWorth(d: Deposit, p: nat, scale: nat)
    requires d.P > 0 && d.scale <= scale
    ensures var whole := Worth(d, p, scale).Floor;
            Compounded(d, p, scale) == if scale <= d.scale + 1 && whole >= d.initial / SCALE_FACTOR then whole else 0
  {
    if scale == d.scale {
      FloorIs(d.initial, p, d.P, 1, d.P * ScalePow(0));
    } else if scale == d.scale + 1 {
      FloorIs(d.initial, p, d.P, SCALE_FACTOR, d.P * ScalePow(1));
    }
    hide Fraction;
  }

  lemma FloorIs(initial: nat, p: nat, snapshot: nat, scale: nat, whole: nat)
    requires snapshot > 0 && scale > 0 && whole == snapshot * scale
    ensures whole > 0 && Fraction(initial, p, whole).Floor == initial * p / snapshot / scale
  {
    PositiveInt(snapshot, scale);
    var x := initial * p;
    var q := x / snapshot / scale;
    DivBounds(x, snapshot);
    DivBounds(x / snapshot, scale);
    NestedBounds(x, snapshot, scale, whole, x / snapshot, q);
    FractionFloor(initial, p, whole, q);
    FractionBelow(initial, p, whole, q);
    hide Fraction;
    FloorBetween(Fraction(initial, p, whole), q);
  }

  lemma NestedBounds(x: nat, y: nat, z: nat, yz: nat, q: nat, r: nat)
    requires yz == y * z && q * y <= x < (q + 1) * y && r * z <= q < (r + 1) * z
    ensures r * yz <= x < (r + 1) * yz
  {
    Monotone(r * z, q, y);
    Monotone(q + 1, (r + 1) * z, y);
    assert r * yz == r * z * y && (r + 1) * yz == (r + 1) * z * y;
  }

  lemma FractionBelow(initial: nat, p: nat, snapshot: nat, stake: nat)
    requires snapshot > 0 && initial * p < (stake + 1) * snapshot
    ensures Fraction(initial, p, snapshot) < (stake + 1) as real
  {
    var x := p as real / snapshot as real;
    assert x * snapshot as real == p as real;
    RealProduct(initial, p, initial * p);
    RealProduct(stake + 1, snapshot, (stake + 1) * snapshot);
    assert initial as real * x * snapshot as real == initial as real * p as real;
    if initial as real * x >= (stake + 1) as real {
      LessEqualTimes((stake + 1) as real, initial as real * x, snapshot as real);
    }
  }

  lemma FloorBetween(x: real, q: nat)
    requires q as real <= x < (q + 1) as real
    ensures x.Floor == q
  {
  }

  /** Dividing twice and truncating both times. */
  lemma FloorAtMost(initial: nat, p: nat, snapshot: nat, scale: nat, whole: nat)
    requires snapshot > 0 && scale > 0 && whole == snapshot * scale
    ensures whole > 0 && (initial * p / snapshot / scale) as real <= Fraction(initial, p, whole)
  {
    PositiveInt(snapshot, scale);
    hide Fraction;
    FloorTwice(initial * p, snapshot, scale, whole, initial * p / snapshot / scale);
    FractionFloor(initial, p, whole, initial * p / snapshot / scale);
  }

  lemma FloorTwice(x: nat, y: nat, z: nat, yz: nat, q: nat)
    requires y > 0 && z > 0 && yz == y * z && q == x / y / z
    ensures q * yz <= x
  {
    DivBounds(x, y);
    DivBounds(x / y, z);
    Monotone(q * z, x / y, y);
    assert q * yz == q * z * y;
  }

  ghost predicate DepositsOk(deposits: map<Address, Deposit>, scale: nat) {
    forall x | x in deposits :: deposits[x].P > 0 && deposits[x].scale <= scale
  }

  ghost function Worths(deposits: map<Address, Deposit>, p: nat, scale: nat): map<Address, real>
    requires DepositsOk(deposits, scale)
  {
    map x | x in deposits :: Worth(deposits[x], p, scale)
  }

  lemma WorthsNonNegative(deposits: map<Address, Deposit>, p: nat, scale: nat)
    requires DepositsOk(deposits, scale)
    ensures Total(Worths(deposits, p, scale)) >= 0.0
    ensures forall x | x in deposits :: 0.0 <= Worth(deposits[x], p, scale) <= Total(Worths(deposits, p, scale))
  {
    hide Total, Fraction;
    forall x | x in deposits ensures Worth(deposits[x], p, scale) >= 0.0 {
      FractionNonNegative(deposits[x].initial, p, deposits[x].P * ScalePow(scale - deposits[x].scale));
    }
    var worths := Worths(deposits, p, scale);
    TotalNonNegative(worths);
    forall x | x in deposits ensures Worth(deposits[x], p, scale) <= Total(worths) {
      assert worths[x] <= Total(worths);
    }
  }

  lemma {:induction false} ScalePowAdd(j: nat, k: nat)
    ensures ScalePow(j + k) == ScalePow(j) * ScalePow(k)
  {
    if j > 0 {
      ScalePowAdd(j - 1, k);
    }
  }

  lemma ChainRatio(p: real, snapshot: real, newP: real, pow: real, ratio: real, later: real)
    requires p > 0.0 && snapshot > 0.0 && pow > 0.0
    requires ratio == newP / (p * pow) && later == newP / (snapshot * pow)
    ensures later == ratio * (p / snapshot)
  {
    var x := p / snapshot;
    assert x * snapshot == p;
    assert ratio * (p * pow) == newP;
    assert ratio * x * (snapshot * pow) == newP;
    assert later * (snapshot * pow) == newP;
  }

  /** A new product changes every deposit's worth by the same ratio. */
  lemma WorthScales(d: Deposit, p: nat, scale: nat, newP: nat, scales: nat, ratio: real)
    requires d.P > 0 && d.scale <= scale && p > 0
    requires ratio == newP as real / (p * ScalePow(scales)) as real
    ensures Times(Worth(d, newP, scale + scales), ratio, Worth(d, p, scale))
  {
    var before, pow := ScalePow(scale - d.scale), ScalePow(scales);
    ScalePowAdd(scale - d.scale, scales);
    assert scale + scales - d.scale == scale - d.scale + scales;
    hide ScalePow, Fraction;
    Grouped(d.P, before, pow);
    FractionScales(d.initial, p, d.P * before, newP, pow, ratio);
  }

  lemma Grouped(x: nat, y: nat, z: nat)
    ensures x * (y * z) == x * y * z
  {
  }

  lemma FractionScales(initial: nat, p: nat, snapshot: nat, newP: nat, pow: nat, ratio: real)
    requires p > 0 && snapshot > 0 && pow > 0 && ratio == newP as real / (p * pow) as real
    ensures snapshot * pow > 0 && Times(Fraction(initial, newP, snapshot * pow), ratio, Fraction(initial, p, snapshot))
  {
    RealProduct(snapshot, pow, snapshot * pow);
    RealProduct(p, pow, p * pow);
    PositiveProduct(snapshot as real, pow as real);
    var x, later := p as real / snapshot as real, newP as real / (snapshot * pow) as real;
    ChainRatio(p as real, snapshot as real, newP as real, pow as real, ratio, later);
    Swapped(initial as real, ratio, x, later);
  }

  lemma Swapped(i: real, ratio: real, x: real, later: real)
    requires later == ratio * x
    ensures i * later == ratio * (i * x)
  {
  }

  lemma AllWorthsScale(deposits: map<Address, Deposit>, p: nat, scale: nat, newP: nat, scales: nat)
    requires DepositsOk(deposits, scale) && p > 0
    ensures DepositsOk(deposits, scale + scales)
    ensures Total(Worths(deposits, newP, scale + scales)) == ClaimsAfter(Total(Worths(deposits, p, scale)), p, newP, scales)
  {
    hide Total, Worth, ScalePow;
    var ratio := newP as real / (p * ScalePow(scales)) as real;
    forall x | x in deposits
      ensures Times(Worths(deposits, newP, scale + scales)[x], ratio, Worths(deposits, p, scale)[x])
    {
      WorthScales(deposits[x], p, scale, newP, scales, ratio);
    }
    TotalTimes(Worths(deposits, newP, scale + scales), ratio, Worths(deposits, p, scale));
  }

  lemma FreshWorth(value: nat, p: nat, scale: nat)
    requires p > 0
    ensures Worth(Deposit(value, p, scale), p, scale) == value as real
    ensures Compounded(Deposit(value, p, scale), p, scale) == value
  {
    assert ScalePow(0) == 1;
    Whole(value as real, p as real);
    DivBounds(value * p, p);
    hide ScalePow, Fraction;
    WholeNat(value, p, value * p / p);
  }

  /** The deposits with `d` as the one of `x`, or without `x` when nothing is left. */
  function Settled(deposits: map<Address, Deposit>, x: Address, d: Deposit): map<Address, Deposit> {
    if d.initial == 0 then deposits - {x} else deposits[x := d]
  }

  /** A fresh deposit changes the claims by its value less what the old one was worth, which is at least what it compounds to. */
  lemma SettledWorths(deposits: map<Address, Deposit>, p: nat, scale: nat, x: Address, value: nat)
    requires DepositsOk(deposits, scale) && p > 0
    ensures var later := Settled(deposits, x, Deposit(value, p, scale));
            DepositsOk(later, scale)
            && Total(Worths(later, p, scale))
               <= Total(Worths(deposits, p, scale)) + value as real
                  - (if x in deposits then Compounded(deposits[x], p, scale) else 0) as real
  {
    hide Total, Worth, Compounded;
    var before, d := Worths(deposits, p, scale), Deposit(value, p, scale);
    if x in deposits {
      CompoundedAtMost(deposits[x], p, scale);
    }
    FreshWorth(value, p, scale);
    TotalUpdate(before, x, value as real);
    if value == 0 {
      DroppedWorth(before, x);
      assert Worths(deposits - {x}, p, scale) == before - {x};
    } else {
      assert Worths(deposits[x := d], p, scale) == before[x := value as real];
    }
  }

  lemma Whole(v: real, p: real)
    requires p > 0.0
    ensures v * (p / p) == v
  {
  }

  lemma WholeNat(v: nat, p: nat, q: nat)
    requires p > 0 && q * p <= v * p < (q + 1) * p
    ensures q == v
  {
    CancelLess(v, q + 1, p);
    CancelLess(q, v + 1, p);
  }

  // ---- the contract ----

  /** An offset is carried out unless too little would be left in the pool or of the product. */
  predicate Accepts(p: nat, debt: nat, lastError: nat, total: nat) {
    debt + MIN_LUSD_IN_SP <= total && ScaledProduct(p, LossFactor(debt, lastError, total)).0 > 0
  }

  class WeiPool {
    var P: nat
    var currentScale: nat
    var totalLUSDDeposits: nat
    var lastLUSDLossError: nat
    var lastLUSDGainError: nat
    var deposits: map<Address, Deposit>
    ghost var claims: real
    ghost var slack: real

    ghost predicate Valid()
      reads this
    {
      P > 0 && DepositsOk(deposits, currentScale)
      && claims == Total(Worths(deposits, P, currentScale)) && lastLUSDLossError as real <= slack
      && Covered(claims, lastLUSDLossError, totalLUSDDeposits, slack)
    }

    constructor ()
      ensures Valid() && totalLUSDDeposits == 0 && deposits == map[] && slack == 0.0
      ensures P == DECIMAL_PRECISION && currentScale == 0 && lastLUSDLossError == 0
    {
      P, currentScale, totalLUSDDeposits := DECIMAL_PRECISION, 0, 0;
      lastLUSDLossError, lastLUSDGainError := 0, 0;
      deposits := map[];
      claims, slack := 0.0, 0.0;
      new;
      assert Worths(deposits, P, currentScale) == map[];
    }

    /** The slack grows to the largest total that an offset has met, and no further. */
    method Offset(debt: nat) returns (ok: bool)
      requires Valid()
      modifies this
      ensures Valid() && deposits == old(deposits)
      ensures ok <==> debt == 0 || old(totalLUSDDeposits) == 0
                      || Accepts(old(P), debt, old(lastLUSDLossError), old(totalLUSDDeposits))
      ensures if ok && debt > 0 && old(totalLUSDDeposits) > 0 then
                totalLUSDDeposits == old(totalLUSDDeposits) - debt
                && slack == MaxReal(old(slack), old(totalLUSDDeposits) as real)
                && lastLUSDLossError == LossError(debt, old(lastLUSDLossError), old(totalLUSDDeposits)) <= old(totalLUSDDeposits)
                && currentScale >= old(currentScale)
                && ScaledProduct(old(P), LossFactor(debt, old(lastLUSDLossError), old(totalLUSDDeposits)))
                   == (P, currentScale - old(currentScale))
                && MovesScale(old(P), LossFactor(debt, old(lastLUSDLossError), old(totalLUSDDeposits)), P, currentScale - old(currentScale))
                && claims == ClaimsAfter(old(claims), old(P), P, currentScale - old(currentScale))
                && Scaled(old(claims), LossFactor(debt, old(lastLUSDLossError), old(totalLUSDDeposits)), claims)
                && (claims <= totalLUSDDeposits as real
                    <==> StaysCovered(old(claims), old(P), debt, old(lastLUSDLossError), old(totalLUSDDeposits)))
              else unchanged(this)
    {
      hide MovesScale, StaysCovered, LossNumerator, LossPerUnit, LossError, LossFactor, ScaledProduct, ScalePow, ClaimsAfter, Covered, Scaled, Total, Worths;
      if totalLUSDDeposits == 0 || debt == 0 {
        return true;
      }
      if debt >= totalLUSDDeposits || totalLUSDDeposits - debt < MIN_LUSD_IN_SP {
        return false;
      }
      var product := ScaledProduct(P, LossFactor(debt, lastLUSDLossError, totalLUSDDeposits));
      if product.0 == 0 {
        return false;
      }
      ScaledExactly(P, LossFactor(debt, lastLUSDLossError, totalLUSDDeposits));
      ghost var rest := ClaimsAfter(claims, P, product.0, product.1);
      ghost var newSlack := MaxReal(slack, totalLUSDDeposits as real);
      WorthsNonNegative(deposits, P, currentScale);
      OffsetStep(claims, lastLUSDLossError, totalLUSDDeposits, slack, debt, P, rest, newSlack);
      AllWorthsScale(deposits, P, currentScale, product.0, product.1);
      CoveredIff(claims, P, debt, lastLUSDLossError, totalLUSDDeposits);
      lastLUSDLossError := LossError(debt, lastLUSDLossError, totalLUSDDeposits);
      P, currentScale := product.0, currentScale + product.1;
      totalLUSDDeposits := totalLUSDDeposits - debt;
      claims, slack := rest, newSlack;
      ok := true;
    }

    /** Fees scale the slack like a deposit, and add the gain error they feed back. */
    method DistributeFees(gain: nat) returns (ok: bool)
      requires Valid()
      modifies this
      ensures Valid() && deposits == old(deposits) && (ok <==> gain == 0 || old(totalLUSDDeposits) > 0)
      ensures if ok && gain > 0 then
                totalLUSDDeposits == old(totalLUSDDeposits) + gain
                && P == RaisedProduct(old(P), GainPerUnit(gain, old(lastLUSDGainError), old(totalLUSDDeposits))) >= old(P)
                && lastLUSDGainError == GainError(gain, old(lastLUSDGainError), old(totalLUSDDeposits)) < old(totalLUSDDeposits)
                && RaisedBy(old(P), GainPerUnit(gain, old(lastLUSDGainError), old(totalLUSDDeposits)), P)
                && GainPerUnit(gain, old(lastLUSDGainError), old(totalLUSDDeposits)) * old(totalLUSDDeposits) + lastLUSDGainError
                   == gain * DECIMAL_PRECISION + old(lastLUSDGainError)
                && currentScale == old(currentScale) && claims == ClaimsAfter(old(claims), old(P), P, 0)
                && GrownSlack(old(slack), slack, old(lastLUSDGainError),
                              GainPerUnit(gain, old(lastLUSDGainError), old(totalLUSDDeposits)))
              else unchanged(this)
    {
      hide RaisedBy, Covered, GainPerUnit, GainError, RaisedProduct, GrownSlack, Total, Worths, ClaimsAfter;
      if gain == 0 {
        return true;
      }
      if totalLUSDDeposits == 0 {
        return false;
      }
      var perUnit := GainPerUnit(gain, lastLUSDGainError, totalLUSDDeposits);
      var newP := RaisedProduct(P, perUnit);
      RaisedExactly(P, perUnit);
      GainSplits(gain, lastLUSDGainError, totalLUSDDeposits);
      WorthsNonNegative(deposits, P, currentScale);
      AllWorthsScale(deposits, P, currentScale, newP, 0);
      ghost var rest, newSlack :=
        FeesStep(claims, lastLUSDLossError, totalLUSDDeposits, slack, gain, lastLUSDGainError, P, perUnit, newP);
      lastLUSDGainError := GainError(gain, lastLUSDGainError, totalLUSDDeposits);
      totalLUSDDeposits := totalLUSDDeposits + gain;
      P, claims, slack := newP, rest, newSlack;
      ok := true;
    }

    /** What depositor `x` would be paid. */
    function CompoundedOf(x: Address): nat
      requires DepositsOk(deposits, currentScale)
      reads this
    {
      if x in deposits then Compounded(deposits[x], P, currentScale) else 0
    }

    /** Records what is left of a deposit after rounding, plus a change, with fresh snapshots. */
    method Settle(x: Address, value: nat, change: int)
      requires Valid() && value == CompoundedOf(x) + change && totalLUSDDeposits + change >= 0
      modifies `totalLUSDDeposits, `deposits, `claims
      ensures Valid() && totalLUSDDeposits == old(totalLUSDDeposits) + change
      ensures deposits == Settled(old(deposits), x, Deposit(value, P, currentScale))
      ensures claims <= old(claims) + change as real
    {
      hide Covered, Total, Worths, Compounded;
      SettledWorths(deposits, P, currentScale, x, value);
      CoveredAfterChange(claims, Total(Worths(Settled(deposits, x, Deposit(value, P, currentScale)), P, currentScale)),
                         lastLUSDLossError, totalLUSDDeposits, slack, change);
      deposits := Settled(deposits, x, Deposit(value, P, currentScale));
      claims := Total(Worths(deposits, P, currentScale));
      totalLUSDDeposits := totalLUSDDeposits + change;
    }

    method Provide(x: Address, amount: nat) returns (ok: bool)
      requires Valid()
      modifies `totalLUSDDeposits, `deposits, `claims
      ensures Valid() && (ok <==> amount > 0)
      ensures if ok then totalLUSDDeposits == old(totalLUSDDeposits) + amount
                         && deposits == old(deposits)[x := Deposit(old(CompoundedOf(x)) + amount, P, currentScale)]
              else unchanged(this)
    {
      hide Covered, Total, Worths, Compounded;
      if amount == 0 {
        return false;
      }
      Settle(x, CompoundedOf(x) + amount, amount);
      return true;
    }

    /** A withdrawal is capped so that it never takes the pool below its minimum, and so never reverts. */
    method Withdraw(x: Address, amount: nat) returns (ok: bool, paid: nat)
      requires Valid()
      modifies `totalLUSDDeposits, `deposits, `claims
      ensures Valid() && (ok <==> x in old(deposits))
      ensures if ok then
                paid == Min(Min(amount, Positive(old(totalLUSDDeposits) - MIN_LUSD_IN_SP)), old(CompoundedOf(x)))
                && totalLUSDDeposits == old(totalLUSDDeposits) - paid
                && (paid > 0 ==> totalLUSDDeposits >= MIN_LUSD_IN_SP)
                && var left := old(CompoundedOf(x)) - paid;
                   deposits == if left == 0 then old(deposits) - {x} else old(deposits)[x := Deposit(left, P, currentScale)]
              else unchanged(this)
    {
      hide Covered, Total, Worths, Compounded;
      if x !in deposits {
        return false, 0;
      }
      var kept := CompoundedOf(x);
      paid := Min(Min(amount, Positive(totalLUSDDeposits - MIN_LUSD_IN_SP)), kept);
      Settle(x, kept - paid, 0 - paid as int);
      ok := true;
    }

    /** All claims together exceed the pool by at most a part in 1e18 of the slack, which the minimum left in the pool covers. */
    lemma NearlyCovered()
      requires Valid()
      ensures (claims - totalLUSDDeposits as real) * DECIMAL_PRECISION as real <= slack
      ensures slack <= (MIN_LUSD_IN_SP * DECIMAL_PRECISION) as real ==> claims <= (totalLUSDDeposits + MIN_LUSD_IN_SP) as real
    {
      var e := DECIMAL_PRECISION as real;
      RealProduct(totalLUSDDeposits, DECIMAL_PRECISION, totalLUSDDeposits * DECIMAL_PRECISION);
      var excess := claims - totalLUSDDeposits as real;
      assert excess * e == claims * e - totalLUSDDeposits as real * e;
      if slack <= (MIN_LUSD_IN_SP * DECIMAL_PRECISION) as real {
        CancelLessEqual(e, excess, MIN_LUSD_IN_SP as real);
      }
    }
  }

  lemma DroppedWorth(worths: map<Address, real>, x: Address)
    ensures Total(worths - {x}) == Total(worths[x := 0.0])
  {
    TotalSplit(worths[x := 0.0], x);
    assert worths[x := 0.0] - {x} == worths - {x};
  }

  lemma CoveredAfterChange(claims: real, later: real, error: nat, total: nat, slack: real, change: int)
    requires Covered(claims, error, total, slack) && later <= claims + change as real && total + change >= 0
    ensures Covered(later, error, total + change, slack)
  {
    LessEqualTimes(later, claims + change as real, DECIMAL_PRECISION as real);
    assert ((total + change) * DECIMAL_PRECISION) as real == (total * DECIMAL_PRECISION) as real + change as real * DECIMAL_PRECISION as real;
  }

  lemma MoreSlack(claims: real, error: nat, total: nat, slack: real, more: real)
    requires Covered(claims, error, total, slack) && slack <= more
    ensures Covered(claims, error, total, more)
  {
  }

  lemma GrownProduct(p: nat, factor: nat, newP: nat)
    requires p > 0 && factor >= DECIMAL_PRECISION && newP == p * factor / DECIMAL_PRECISION
    ensures newP >= p && 0.0 <= newP as real / p as real <= factor as real / DECIMAL_PRECISION as real
  {
    DivBounds(p * factor, DECIMAL_PRECISION);
    QuotientAtMost(newP, p, factor, DECIMAL_PRECISION);
    assert p * factor >= p * DECIMAL_PRECISION;
  }

  /** Claims times a ratio of at most `factor / e`. */
  lemma Shrunk(claims: real, ratio: real, factor: nat, rest: real)
    requires claims >= 0.0 && 0.0 <= ratio <= factor as real / DECIMAL_PRECISION as real && rest == claims * ratio
    ensures rest >= 0.0 && Scaled(claims, factor, rest)
  {
    var e, bound := DECIMAL_PRECISION as real, factor as real / DECIMAL_PRECISION as real;
    assert bound * e == factor as real;
    LessEqualTimes(ratio, bound, claims);
    LessEqualTimes(rest, bound * claims, e);
    LessEqualTimes(0.0, ratio, claims);
    assert bound * claims * e == claims * factor as real;
  }

  // ---- where the feedback undercharges ----

  /** What the truncation of the new product drops, in units of 1e-18. */
  function Lost(p: nat, factor: nat): nat {
    var r := ScaledProduct(p, factor);
    LostSplits(p, factor);
    p * ScalePow(r.1) * factor - r.0 * DECIMAL_PRECISION
  }

  lemma LostSplits(p: nat, factor: nat)
    ensures var r := ScaledProduct(p, factor);
            0 <= p * ScalePow(r.1) * factor - r.0 * DECIMAL_PRECISION < DECIMAL_PRECISION
  {
    var r := ScaledProduct(p, factor);
    assert ScalePow(0) == 1 && ScalePow(1) == SCALE_FACTOR && ScalePow(2) == SCALE_FACTOR * SCALE_FACTOR;
    DivBounds(p * factor * ScalePow(r.1), DECIMAL_PRECISION);
    Regroup(p, factor, ScalePow(r.1));
    hide ScaledProduct, ScalePow;
  }

  /** What claims and error exceed the pool by, in 1e-18 wei; zero after a first offset of a full pool. */
  ghost function Excess(claims: real, error: nat, total: nat): real {
    claims * DECIMAL_PRECISION as real + error as real - (total * DECIMAL_PRECISION) as real
  }

  /**
   What an offset charges too little: the old error is charged at the new loss per unit, the new error and
   whatever of the old one the debt did not use up are held back.
   */
  function Undercharge(debt: nat, error: nat, total: nat): int
    requires debt < total
  {
    error * LossPerUnit(debt, error, total)
    - (LossError(debt, error, total) + Positive(error - debt * DECIMAL_PRECISION)) * DECIMAL_PRECISION
  }

  /**
   The undercharge and the old excess, against what truncating the new product takes off the claims; both
   sides are times the old product, carried to the scale of the new one.
   */
  ghost predicate StaysCovered(claims: real, p: nat, debt: nat, error: nat, total: nat)
    requires debt < total
  {
    var factor := LossFactor(debt, error, total);
    var r := ScaledProduct(p, factor);
    MakesUp((p * ScalePow(r.1)) as real, Undercharge(debt, error, total) as real, Excess(claims, error, total),
            (r.0 * DECIMAL_PRECISION) as real, (total * DECIMAL_PRECISION - error) as real, Lost(p, factor) as real)
  }

  ghost predicate MakesUp(w: real, undercharge: real, excess: real, ne: real, room: real, lost: real) {
    w * undercharge + excess * ne <= room * lost
  }

  /** The claims times the loss factor, when claims and error make up the pool and the excess. */
  lemma LossBalance(u: real, e: real, f: real, l: real, t: real, error: real, x: real, d: real, held: real)
    requires u == t - error + x && f == e - l && t * l == (d * e - error + held) * e
    ensures u * f == (t - d * e) * e + (error * l - held * e) + x * f
  {
    assert u * f == u * e - u * l;
    assert u * l == t * l - error * l + x * l;
    assert x * f == x * e - x * l;
  }

  lemma TruncatedBalance(u: real, w: real, f: real, n: real, lost: real, a: real, x: real, rest: real, left: real)
    requires w > 0.0 && n + lost == w * f && u * f == left + a + x * f && u == rest + x
    ensures u * n <= left * w <==> w * a + x * n <= rest * lost
  {
    assert u * n == u * f * w - u * lost;
    assert (left + a + x * f) * w == left * w + a * w + x * (f * w);
    assert u * lost == rest * lost + x * lost;
    assert x * (w * f) == x * n + x * lost;
  }

  lemma ClaimsCompare(c: real, n: real, w: real, e: real, u: real, total: real)
    requires w > 0.0 && e > 0.0 && c * e == u
    ensures c * (n / w) <= total <==> u * (n * e) <= total * e * e * w
  {
    var q, k := n / w, w * e * e;
    assert q * w == n;
    PositiveProduct(w, e);
    PositiveProduct(w * e, e);
    assert c * q * k == u * (n * e) by { CompareTerms(c, q, w, e, u, n); }
    assert total * k == total * e * e * w;
    Units(c * q, total, k);
  }

  lemma CompareTerms(c: real, q: real, w: real, e: real, u: real, n: real)
    requires q * w == n && c * e == u
    ensures c * q * (w * e * e) == u * (n * e)
  {
    assert c * q * (w * e * e) == (c * e) * (q * w) * e;
  }

  lemma Units(a: real, b: real, e: real)
    requires e > 0.0
    ensures a <= b <==> a * e <= b * e
  {
    if a <= b {
      LessEqualTimes(a, b, e);
    } else {
      LessTimes(b, a, e);
    }
  }

  lemma IntProduct(x: int, y: int, p: int)
    requires p == x * y
    ensures p as real == x as real * y as real
  {
  }

  /** What the loss takes from a unit of the pool, as the errors split it. */
  lemma LossTimesTotal(debt: nat, error: nat, total: nat)
    requires debt < total
    ensures var l, held := LossPerUnit(debt, error, total), LossError(debt, error, total) + Positive(error - debt * DECIMAL_PRECISION);
            total * DECIMAL_PRECISION * l == (debt * DECIMAL_PRECISION - error + held) * DECIMAL_PRECISION
            && LossFactor(debt, error, total) == DECIMAL_PRECISION - l
  {
    var l, num, left := LossPerUnit(debt, error, total), LossNumerator(debt, error), LossError(debt, error, total);
    LossSplits(debt, error, total);
    assert left == l * total - num;
    assert num == debt * DECIMAL_PRECISION - error + Positive(error - debt * DECIMAL_PRECISION);
    hide LossPerUnit, LossNumerator, LossError, LossFactor, Positive;
    assert total * DECIMAL_PRECISION * l == l * total * DECIMAL_PRECISION;
  }

  /** How an offset splits the loss `l` and the product, in real numbers; `held` is what the errors hold back. */
  ghost predicate OffsetReals(e: real, f: real, l: real, t: real, error: real, d: real, held: real, w: real, n: real, lost: real, a: real) {
    e > 0.0 && w > 0.0 && f == e - l && t * l == (d * e - error + held) * e && n * e + lost == w * f && a == error * l - held * e
  }

  lemma CoveredCore(c: real, e: real, f: real, l: real, t: real, error: real, x: real, d: real, held: real,
                    w: real, n: real, lost: real, a: real, left: real, ne: real, room: real, rest: real)
    requires OffsetReals(e, f, l, t, error, d, held, w, n, lost, a) && rest == c * (n / w)
    requires x == c * e + error - t && left * e == t - d * e && ne == n * e && room == t - error
    ensures rest <= left <==> MakesUp(w, a, x, ne, room, lost)
  {
    var u := c * e;
    LossBalance(u, e, f, l, t, error, x, d, held);
    TruncatedBalance(u, w, f, n * e, lost, a, x, t - error, (t - d * e) * e);
    ClaimsCompare(c, n, w, e, u, left);
    TimesBoth(left, e, t - d * e, w);
  }

  lemma TimesBoth(left: real, e: real, td: real, w: real)
    requires left * e == td
    ensures left * e * e * w == td * e * w
  {
  }

  lemma SplitsAsReals(debt: nat, error: nat, total: nat, l: nat, held: nat, f: nat, w: nat, n: nat, lost: nat, a: int)
    requires w > 0 && f == DECIMAL_PRECISION - l
    requires total * DECIMAL_PRECISION * l == (debt * DECIMAL_PRECISION - error + held) * DECIMAL_PRECISION
    requires n * DECIMAL_PRECISION + lost == w * f && a == error * l - held * DECIMAL_PRECISION
    ensures OffsetReals(DECIMAL_PRECISION as real, f as real, l as real, (total * DECIMAL_PRECISION) as real, error as real,
                        debt as real, held as real, w as real, n as real, lost as real, a as real)
  {
    IntProduct(total * DECIMAL_PRECISION, l, total * DECIMAL_PRECISION * l);
    IntProduct(w, f, w * f);
    IntProduct(error, l, error * l);
  }

  lemma OffsetSplits(p: nat, debt: nat, error: nat, total: nat)
    requires p > 0 && debt < total
    ensures var f := LossFactor(debt, error, total);
            var r := ScaledProduct(p, f);
            OffsetReals(DECIMAL_PRECISION as real, f as real, LossPerUnit(debt, error, total) as real, (total * DECIMAL_PRECISION) as real,
                        error as real, debt as real,
                        (LossError(debt, error, total) + Positive(error - debt * DECIMAL_PRECISION)) as real,
                        (p * ScalePow(r.1)) as real, r.0 as real, Lost(p, f) as real, Undercharge(debt, error, total) as real)
  {
    var f := LossFactor(debt, error, total);
    var r := ScaledProduct(p, f);
    LossTimesTotal(debt, error, total);
    LostSplits(p, f);
    PositiveInt(p, ScalePow(r.1));
    LostIs(p, f);
    hide LossPerUnit, LossError, LossFactor, Positive, ScaledProduct, Lost, OffsetReals, ScalePow;
    SplitsAsReals(debt, error, total, LossPerUnit(debt, error, total),
                  LossError(debt, error, total) + Positive(error - debt * DECIMAL_PRECISION), f,
                  p * ScalePow(r.1), r.0, Lost(p, f), Undercharge(debt, error, total));
  }

  lemma LostIs(p: nat, factor: nat)
    ensures var r := ScaledProduct(p, factor);
            r.0 * DECIMAL_PRECISION + Lost(p, factor) == p * ScalePow(r.1) * factor
  {
    hide ScaledProduct, ScalePow;
  }

  lemma PositiveInt(x: nat, y: nat)
    requires x > 0 && y > 0
    ensures x * y > 0
  {
  }

  /** The exact condition for any books: an offset leaves the claims covered exactly when the product's truncation makes up for what it undercharges. */
  lemma CoveredIff(claims: real, p: nat, debt: nat, error: nat, total: nat)
    requires p > 0 && debt < total
    ensures var r := ScaledProduct(p, LossFactor(debt, error, total));
            ClaimsAfter(claims, p, r.0, r.1) <= (total - debt) as real <==> StaysCovered(claims, p, debt, error, total)
  {
    OffsetSplits(p, debt, error, total);
    var l, f := LossPerUnit(debt, error, total), LossFactor(debt, error, total);
    var held := LossError(debt, error, total) + Positive(error - debt * DECIMAL_PRECISION);
    var r, a, lost := ScaledProduct(p, f), Undercharge(debt, error, total), Lost(p, f);
    var w := p * ScalePow(r.1);
    hide LossPerUnit, LossError, LossFactor, Undercharge, Positive, ScaledProduct, ScalePow, Lost, OffsetReals, MakesUp;
    CoveredCore(claims, DECIMAL_PRECISION as real, f as real, l as real, (total * DECIMAL_PRECISION) as real, error as real,
                Excess(claims, error, total), debt as real, held as real, w as real, r.0 as real, lost as real, a as real,
                (total - debt) as real, (r.0 * DECIMAL_PRECISION) as real, (total * DECIMAL_PRECISION - error) as real,
                ClaimsAfter(claims, p, r.0, r.1));
    hide ClaimsAfter, Excess;
  }

  /**
   For books that balance with the error outstanding, the condition is one on the product, the error and the total
   before the call and the debt. Books balance after the first offset of a pool whose deposits are all there.
   */
  lemma CoveredExactly(claims: real, p: nat, debt: nat, error: nat, total: nat)
    requires p > 0 && debt < total && Excess(claims, error, total) == 0.0
    ensures var r := ScaledProduct(p, LossFactor(debt, error, total));
            ClaimsAfter(claims, p, r.0, r.1) <= (total - debt) as real
            <==> p * ScalePow(r.1) * Undercharge(debt, error, total)
                 <= (total * DECIMAL_PRECISION - error) * Lost(p, LossFactor(debt, error, total))
  {
    hide Undercharge, Lost, ScaledProduct, ScalePow, LossFactor, ClaimsAfter, Excess, MakesUp;
    CoveredIff(claims, p, debt, error, total);
    var f := LossFactor(debt, error, total);
    var r := ScaledProduct(p, f);
    MakesUpInWei(p * ScalePow(r.1), Undercharge(debt, error, total), (r.0 * DECIMAL_PRECISION) as real,
                 total * DECIMAL_PRECISION - error, Lost(p, f));
  }

  lemma MakesUpInWei(w: int, a: int, ne: real, room: int, lost: int)
    ensures MakesUp(w as real, a as real, 0.0, ne, room as real, lost as real) <==> w * a <= room * lost
  {
    IntProduct(w, a, w * a);
    IntProduct(room, lost, room * lost);
  }

  /** An offset that does not undercharge keeps claims covered that leave room for the error. */
  lemma NoUnderchargeCovers(claims: real, p: nat, debt: nat, error: nat, total: nat)
    requires p > 0 && debt < total && claims >= 0.0 && Excess(claims, error, total) <= 0.0
    requires Undercharge(debt, error, total) <= 0
    ensures var r := ScaledProduct(p, LossFactor(debt, error, total));
            ClaimsAfter(claims, p, r.0, r.1) <= (total - debt) as real
  {
    RoomForError(claims, error, total);
    hide Undercharge, Lost, ScaledProduct, ScalePow, LossFactor, ClaimsAfter, Excess, MakesUp;
    CoveredIff(claims, p, debt, error, total);
    var f := LossFactor(debt, error, total);
    var r := ScaledProduct(p, f);
    NothingToMakeUp((p * ScalePow(r.1)) as real, Undercharge(debt, error, total) as real, Excess(claims, error, total),
                    (r.0 * DECIMAL_PRECISION) as real, (total * DECIMAL_PRECISION - error) as real, Lost(p, f) as real);
  }

  lemma NothingToMakeUp(w: real, a: real, x: real, ne: real, room: real, lost: real)
    requires w >= 0.0 && a <= 0.0 && x <= 0.0 && ne >= 0.0 && room >= 0.0 && lost >= 0.0
    ensures MakesUp(w, a, x, ne, room, lost)
  {
    Opposite(w, a);
    Opposite(ne, x);
    Product(room, lost);
  }

  lemma Opposite(a: real, b: real)
    requires a >= 0.0 && b <= 0.0
    ensures a * b <= 0.0 && b * a <= 0.0
  {
  }

  lemma RoomForError(claims: real, error: nat, total: nat)
    requires claims >= 0.0 && Excess(claims, error, total) <= 0.0
    ensures error <= total * DECIMAL_PRECISION
  {
    Product(claims, DECIMAL_PRECISION as real);
  }

  /** How an offset moves the excess: an old error is given back in full but charged only on what is left. */
  lemma ExcessAfter(claims: real, p: nat, debt: nat, error: nat, total: nat)
    requires p > 0 && debt < total
    ensures var f := LossFactor(debt, error, total);
            var r := ScaledProduct(p, f);
            Moved(Excess(ClaimsAfter(claims, p, r.0, r.1), LossError(debt, error, total), total - debt),
                  Excess(claims, error, total), error as real, LossPerUnit(debt, error, total) as real, DECIMAL_PRECISION as real,
                  Positive(error - debt * DECIMAL_PRECISION) as real, claims, Lost(p, f) as real, (p * ScalePow(r.1)) as real)
  {
    OffsetSplits(p, debt, error, total);
    var l, f := LossPerUnit(debt, error, total), LossFactor(debt, error, total);
    var left, pos := LossError(debt, error, total), Positive(error - debt * DECIMAL_PRECISION);
    var r, lost := ScaledProduct(p, f), Lost(p, f);
    var w := p * ScalePow(r.1);
    hide LossPerUnit, LossError, LossFactor, Undercharge, Positive, ScaledProduct, ScalePow, Lost, OffsetReals, Moved;
    ExcessCore(claims, DECIMAL_PRECISION as real, f as real, l as real, (total * DECIMAL_PRECISION) as real, error as real,
               Excess(claims, error, total), debt as real, left as real, pos as real, w as real, r.0 as real, lost as real,
               claims * (r.0 as real / w as real), Undercharge(debt, error, total) as real,
               Excess(ClaimsAfter(claims, p, r.0, r.1), left, total - debt));
  }

  /** `later` is `x` with the old error charged at the loss, less what was not used up and what truncation cut off. */
  ghost predicate Moved(later: real, x: real, error: real, l: real, e: real, pos: real, c: real, lost: real, w: real)
    requires e > 0.0 && w > 0.0
  {
    later == x - x * (l / e) + error * (l / e) - pos - c * (lost / w)
  }

  lemma ExcessCore(c: real, e: real, f: real, l: real, t: real, error: real, x: real, d: real, left: real, pos: real,
                   w: real, n: real, lost: real, rest: real, a: real, later: real)
    requires OffsetReals(e, f, l, t, error, d, left + pos, w, n, lost, a)
    requires x == c * e + error - t && rest == c * (n / w) && later == rest * e + left - (t - d * e)
    ensures e > 0.0 && w > 0.0 && Moved(later, x, error, l, e, pos, c, lost, w)
  {
    var u := c * e;
    LossBalance(u, e, f, l, t, error, x, d, left + pos);
    RestOfClaims(c, n, w, e, f, lost, rest, u);
    SplitByUnit(rest, e, f, l, u * f / e, t, d, left, pos, error, x, u, c * (lost / w));
  }

  lemma RestOfClaims(c: real, n: real, w: real, e: real, f: real, lost: real, rest: real, u: real)
    requires w > 0.0 && e > 0.0 && n * e + lost == w * f && rest == c * (n / w) && u == c * e
    ensures rest * e == u * f / e - c * (lost / w)
  {
    var q, k := n / w, lost / w;
    assert q * w == n && k * w == lost;
    assert (q * e + k) * w == f * w;
    CancelLessEqual(w, q * e + k, f);
    CancelLessEqual(w, f, q * e + k);
    assert c * (q * e + k) == c * f;
    assert u * f / e == c * f by { QuotientOfProduct(c * e, f, e); }
  }

  lemma SplitByUnit(rest: real, e: real, f: real, l: real, uf: real, t: real, d: real, left: real, pos: real, error: real, x: real, u: real, cut: real)
    requires e > 0.0 && f == e - l && uf == u * f / e && rest * e == uf - cut
    requires u * f == (t - d * e) * e + (error * l - (left + pos) * e) + x * f
    ensures rest * e + left - (t - d * e) == x - x * (l / e) + error * (l / e) - pos - cut
  {
    var q := l / e;
    assert q * e == l;
    assert x * f == (x - x * q) * e;
    assert error * l == error * q * e;
    assert uf * e == u * f;
    var sum := (t - d * e) + error * q - (left + pos) + (x - x * q);
    assert sum * e == uf * e;
    CancelLessEqual(e, sum, uf);
    CancelLessEqual(e, uf, sum);
  }

  /** The first offset of a full pool leaves balanced books, so the claims below the pool by exactly its error. */
  lemma FirstOffsetBalances(debt: nat, total: nat)
    requires debt < total
    ensures var r := ScaledProduct(DECIMAL_PRECISION, LossFactor(debt, 0, total));
            var rest := ClaimsAfter(total as real, DECIMAL_PRECISION, r.0, r.1);
            Excess(rest, LossError(debt, 0, total), total - debt) == 0.0 && rest < (total - debt) as real
  {
    var f := LossFactor(debt, 0, total);
    var r := ScaledProduct(DECIMAL_PRECISION, f);
    var rest, left := ClaimsAfter(total as real, DECIMAL_PRECISION, r.0, r.1), LossError(debt, 0, total);
    RealProduct(total, DECIMAL_PRECISION, total * DECIMAL_PRECISION);
    ExcessAfter(total as real, DECIMAL_PRECISION, debt, 0, total);
    NothingLost(f);
    LossSplits(debt, 0, total);
    assert left > 0;
    hide LossError, LossPerUnit, LossNumerator, LossFactor, ClaimsAfter, ScaledProduct, ScalePow, Lost;
    assert Excess(rest, left, total - debt) == 0.0 by { NoQuotient(total as real, (DECIMAL_PRECISION * ScalePow(r.1)) as real); }
    RealProduct(total - debt, DECIMAL_PRECISION, (total - debt) * DECIMAL_PRECISION);
    Units((total - debt) as real, rest, DECIMAL_PRECISION as real);
  }

  lemma NoQuotient(c: real, w: real)
    requires w > 0.0
    ensures c * (0.0 / w) == 0.0
  {
  }

  /** From a product of one, nothing is truncated. */
  lemma NothingLost(factor: nat)
    ensures Lost(DECIMAL_PRECISION, factor) == 0
  {
    assert ScalePow(0) == 1 && ScalePow(1) == SCALE_FACTOR && ScalePow(2) == SCALE_FACTOR * SCALE_FACTOR;
  }

  const FIRST_DEBT: nat := 3552628228973002981170
  const SECOND_DEBT: nat := 3690610941867448973437

  /** The two offsets of `OvershootingRun`, step by step. */
  lemma OvershootingSteps()
    ensures LossFactor(FIRST_DEBT, 0, 10000 * DECIMAL_PRECISION) == 644737177102699701
    ensures LossError(FIRST_DEBT, 0, 10000 * DECIMAL_PRECISION) == 8830 * DECIMAL_PRECISION
    ensures ScaledProduct(DECIMAL_PRECISION, 644737177102699701) == (644737177102699701, 0)
    ensures var left := 10000 * DECIMAL_PRECISION - FIRST_DEBT;
            LossFactor(SECOND_DEBT, 8830 * DECIMAL_PRECISION, left) == 427579008480292069
            && ScaledProduct(644737177102699701, 427579008480292069) == (275676082915954805, 0)
            && 10000 * 275676082915954805 == left - SECOND_DEBT + 4607
  {
  }

  /** One depositor, two accepted offsets: the compounded deposit is then 4607 wei more than the pool holds. */
  method OvershootingRun() returns (pool: WeiPool)
    ensures fresh(pool) && pool.Valid() && pool.deposits.Keys == {1}
    ensures pool.totalLUSDDeposits == 10000 * DECIMAL_PRECISION - FIRST_DEBT - SECOND_DEBT
    ensures pool.CompoundedOf(1) == pool.totalLUSDDeposits + 4607
  {
    hide LossFactor, LossError, ScaledProduct, ClaimsAfter, Covered, Scaled, Worths, Total;
    OvershootingSteps();
    pool := new WeiPool();
    var ok := pool.Provide(1, 10000 * DECIMAL_PRECISION);
    ok := pool.Offset(FIRST_DEBT);
    ok := pool.Offset(SECOND_DEBT);
  }
}
