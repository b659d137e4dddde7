/**
 Collateral gains in wei: a running sum per scale, truncated gains, and the fed-back error of the gain per unit. Each
 offset divides its collateral by the LUSD in the pool, which the claims on it can exceed; the question is whether the
 collateral covers all gains together.
 */
module StabilityGains {
  import opened Accounts
  import opened Arithmetic
  import opened Protocol
  import opened StabilityRounding

  /** A scale that was not reached yet has no sum. */
  function SumAt(sums: map<nat, nat>, scale: nat): nat { if scale in sums then sums[scale] else 0 }

  /** What a deposit is paid: its share of the sum since its snapshot `s`, and of a billionth of the next scale's sum. */
  function GainOf(d: Deposit, s: nat, sums: map<nat, nat>): nat
    requires d.P > 0 && s <= SumAt(sums, d.scale)
  {
    Paid(d.initial, SumAt(sums, d.scale) - s + SumAt(sums, d.scale + 1) / SCALE_FACTOR, d.P)
  }

  function Paid(initial: nat, portion: nat, snapshot: nat): nat
    requires snapshot > 0
  {
    initial * portion / snapshot / DECIMAL_PRECISION
  }

  ghost function Portions(first: nat, second: nat): real { first as real + second as real / SCALE_FACTOR as real }

  /** The gain before anything is truncated, in units of 1e-18 wei. */
  ghost function Earned(d: Deposit, s: nat, sums: map<nat, nat>): real
    requires d.P > 0 && s <= SumAt(sums, d.scale)
  {
    Share(d.initial, Portions(SumAt(sums, d.scale) - s, SumAt(sums, d.scale + 1)), d.P)
  }

  ghost function Share(initial: nat, portions: real, snapshot: nat): real
    requires snapshot > 0
  {
    initial as real * (portions / snapshot as real)
  }

  lemma GainAtMost(d: Deposit, s: nat, sums: map<nat, nat>)
    requires d.P > 0 && s <= SumAt(sums, d.scale)
    ensures (GainOf(d, s, sums) * DECIMAL_PRECISION) as real <= Earned(d, s, sums)
  {
    hide SumAt, Paid, Portions, Share;
    var first, second := SumAt(sums, d.scale) - s, SumAt(sums, d.scale + 1);
    WholePortion(first, second);
    PaidAtMost(d.initial, first + second / SCALE_FACTOR, d.P);
    ShareGrows(d.initial, (first + second / SCALE_FACTOR) as real, Portions(first, second), d.P);
  }

  lemma PaidAtMost(initial: nat, portion: nat, snapshot: nat)
    requires snapshot > 0
    ensures (Paid(initial, portion, snapshot) * DECIMAL_PRECISION) as real <= Share(initial, portion as real, snapshot)
  {
    var q := initial * portion / snapshot;
    DivBounds(initial * portion, snapshot);
    FractionFloor(initial, portion, snapshot, q);
    DivBounds(q, DECIMAL_PRECISION);
  }

  /** Truncation takes less than one wei, and less than one unit of the sum. */
  lemma GainAtLeast(d: Deposit, s: nat, sums: map<nat, nat>)
    requires d.P > 0 && s <= SumAt(sums, d.scale)
    ensures Earned(d, s, sums) <= ((GainOf(d, s, sums) + 1) * DECIMAL_PRECISION) as real + d.initial as real / d.P as real
  {
    hide SumAt, Paid, Portions, Share;
    var first, second := SumAt(sums, d.scale) - s, SumAt(sums, d.scale + 1);
    var portion := first + second / SCALE_FACTOR;
    WholePortion(first, second);
    PaidAtLeast(d.initial, portion, d.P);
    ShareGrows(d.initial, Portions(first, second), (portion + 1) as real, d.P);
    OneMoreUnit(d.initial, portion, d.P);
  }

  lemma PaidAtLeast(initial: nat, portion: nat, snapshot: nat)
    requires snapshot > 0
    ensures Share(initial, portion as real, snapshot) <= ((Paid(initial, portion, snapshot) + 1) * DECIMAL_PRECISION) as real
  {
    var q := initial * portion / snapshot;
    DivBounds(initial * portion, snapshot);
    FractionBelow(initial, portion, snapshot, q);
    DivBounds(q, DECIMAL_PRECISION);
  }

  lemma OneMoreUnit(initial: nat, portion: nat, snapshot: nat)
    requires snapshot > 0
    ensures Share(initial, (portion + 1) as real, snapshot) == Share(initial, portion as real, snapshot) + initial as real / snapshot as real
  {
    var d := snapshot as real;
    QuotientSum(portion as real, 1.0, d);
    Quotient(1.0, d);
    QuotientOfProduct(initial as real, 1.0, d);
    OneShare(initial as real, d);
  }

  lemma QuotientSum(a: real, b: real, d: real)
    requires d > 0.0
    ensures (a + b) / d == a / d + b / d
  {
  }

  lemma OneShare(i: real, d: real)
    requires d > 0.0
    ensures i * (1.0 / d) == i / d
  {
  }

  lemma WholePortion(first: nat, second: nat)
    ensures (first + second / SCALE_FACTOR) as real <= Portions(first, second) <= (first + second / SCALE_FACTOR + 1) as real
  {
    DivBounds(second, SCALE_FACTOR);
    CancelLessEqual(SCALE_FACTOR as real, second as real / SCALE_FACTOR as real, (second / SCALE_FACTOR + 1) as real);
    CancelLessEqual(SCALE_FACTOR as real, (second / SCALE_FACTOR) as real, second as real / SCALE_FACTOR as real);
  }

  lemma ShareGrows(initial: nat, a: real, b: real, snapshot: nat)
    requires snapshot > 0 && a <= b
    ensures Share(initial, a, snapshot) <= Share(initial, b, snapshot)
  {
    var d := snapshot as real;
    Quotient(a, d);
    Quotient(b, d);
    CancelLessEqual(d, a / d, b / d);
    LessEqualTimes(a / d, b / d, initial as real);
  }

  // ----- an offset -----

  /** The claim of a deposit that still takes part in gains: none after two scale changes. */
  ghost function Recent(d: Deposit, p: nat, scale: nat): real
    requires d.P > 0 && d.scale <= scale
  {
    if scale <= d.scale + 1 then Worth(d, p, scale) else 0.0
  }

  function SumsAfter(sums: map<nat, nat>, scale: nat, perUnit: nat, p: nat): map<nat, nat> {
    sums[scale := SumAt(sums, scale) + perUnit * p]
  }

  lemma SumsGrow(sums: map<nat, nat>, scale: nat, perUnit: nat, p: nat, more: nat, k: nat)
    requires more == perUnit * p
    ensures SumAt(SumsAfter(sums, scale, perUnit, p), k) == SumAt(sums, k) + if k == scale then more else 0
  {
  }

  /** Each deposit gains the gain per unit on its claim. */
  lemma EarnedGrows(d: Deposit, s: nat, sums: map<nat, nat>, p: nat, scale: nat, perUnit: nat)
    requires d.P > 0 && d.scale <= scale && s <= SumAt(sums, d.scale)
    ensures s <= SumAt(SumsAfter(sums, scale, perUnit, p), d.scale)
    ensures Times(Earned(d, s, SumsAfter(sums, scale, perUnit, p)) - Earned(d, s, sums), perUnit as real, Recent(d, p, scale))
  {
    var more := perUnit * p;
    SumsGrow(sums, scale, perUnit, p, more, d.scale);
    SumsGrow(sums, scale, perUnit, p, more, d.scale + 1);
    TimesNothing(perUnit as real);
    hide SumAt, SumsAfter, Portions, Share, Fraction, ScalePow, Times;
    var first, second := SumAt(sums, d.scale) - s, SumAt(sums, d.scale + 1);
    if scale == d.scale {
      FirstGrows(d.initial, first, second, perUnit, p, more, d.P);
    } else if scale == d.scale + 1 {
      SecondGrows(d.initial, first, second, perUnit, p, more, d.P);
    }
  }

  lemma FirstGrows(initial: nat, first: nat, second: nat, g: nat, p: nat, more: nat, snapshot: nat)
    requires snapshot > 0 && more == g * p
    ensures Times(Share(initial, Portions(first + more, second), snapshot) - Share(initial, Portions(first, second), snapshot),
                  g as real, Fraction(initial, p, snapshot * ScalePow(0)))
  {
    RealProduct(g, p, more);
    ShareOfSum(initial as real, Portions(first, second), g as real, p as real, snapshot as real);
  }

  lemma SecondGrows(initial: nat, first: nat, second: nat, g: nat, p: nat, more: nat, snapshot: nat)
    requires snapshot > 0 && more == g * p
    ensures Times(Share(initial, Portions(first, second + more), snapshot) - Share(initial, Portions(first, second), snapshot),
                  g as real, Fraction(initial, p, snapshot * ScalePow(1)))
  {
    assert ScalePow(1) == SCALE_FACTOR;
    hide ScalePow;
    RealProduct(g, p, more);
    QuotientOfProduct(p as real, g as real, SCALE_FACTOR as real);
    ShareOfSum(initial as real, Portions(first, second), g as real, p as real / SCALE_FACTOR as real, snapshot as real);
    NextScale(p, snapshot);
  }

  lemma ShareOfSum(i: real, a: real, g: real, p: real, d: real)
    requires d > 0.0
    ensures i * ((a + g * p) / d) == i * (a / d) + g * (i * (p / d))
  {
    QuotientOfProduct(p, g, d);
    assert (a + g * p) / d == a / d + g * p / d;
  }

  lemma NextScale(p: nat, snapshot: nat)
    requires snapshot > 0
    ensures p as real / SCALE_FACTOR as real / snapshot as real == p as real / (snapshot * SCALE_FACTOR) as real
  {
    var x, y := p as real / SCALE_FACTOR as real / snapshot as real, p as real / (snapshot * SCALE_FACTOR) as real;
    assert x * snapshot as real * SCALE_FACTOR as real == p as real;
    assert y * (snapshot * SCALE_FACTOR) as real == p as real;
    CancelLessEqual((snapshot * SCALE_FACTOR) as real, x, y);
    CancelLessEqual((snapshot * SCALE_FACTOR) as real, y, x);
  }

  // ----- all depositors -----

  /** Snapshots of the sums go with the deposits, and no sum is ahead of the current scale. */
  ghost predicate SnapshotsOk(deposits: map<Address, Deposit>, snapshots: map<Address, nat>, sums: map<nat, nat>, scale: nat) {
    DepositsOk(deposits, scale) && snapshots.Keys == deposits.Keys && (forall k | k in sums :: k <= scale)
    && forall x | x in deposits :: snapshots[x] <= SumAt(sums, deposits[x].scale)
  }

  ghost function Earneds(deposits: map<Address, Deposit>, snapshots: map<Address, nat>, sums: map<nat, nat>, scale: nat): map<Address, real>
    requires SnapshotsOk(deposits, snapshots, sums, scale)
  {
    map x | x in deposits :: Earned(deposits[x], snapshots[x], sums)
  }

  ghost function Recents(deposits: map<Address, Deposit>, p: nat, scale: nat): map<Address, real>
    requires DepositsOk(deposits, scale)
  {
    map x | x in deposits :: Recent(deposits[x], p, scale)
  }

  lemma RecentsAtMost(deposits: map<Address, Deposit>, p: nat, scale: nat)
    requires DepositsOk(deposits, scale)
    ensures Total(Recents(deposits, p, scale)) <= Total(Worths(deposits, p, scale))
  {
    hide Total, Worth;
    WorthsNonNegative(deposits, p, scale);
    TotalMonotone(Recents(deposits, p, scale), Worths(deposits, p, scale));
  }

  lemma AllEarnedGrow(deposits: map<Address, Deposit>, snapshots: map<Address, nat>, sums: map<nat, nat>, scale: nat, later: nat, p: nat, perUnit: nat)
    requires SnapshotsOk(deposits, snapshots, sums, scale) && later >= scale
    ensures SnapshotsOk(deposits, snapshots, SumsAfter(sums, scale, perUnit, p), later)
    ensures Times(Total(Earneds(deposits, snapshots, SumsAfter(sums, scale, perUnit, p), later))
                  - Total(Earneds(deposits, snapshots, sums, scale)), perUnit as real, Total(Recents(deposits, p, scale)))
  {
    hide Total, Earned, Recent, Times, SumsAfter;
    var sums' := SumsAfter(sums, scale, perUnit, p);
    SumsOk(sums, scale, perUnit, p, later);
    forall x | x in deposits
      ensures snapshots[x] <= SumAt(sums', deposits[x].scale)
      ensures Times(Earned(deposits[x], snapshots[x], sums') - Earned(deposits[x], snapshots[x], sums), perUnit as real,
                    Recent(deposits[x], p, scale))
    {
      EarnedGrows(deposits[x], snapshots[x], sums, p, scale, perUnit);
    }
    var before, after, recents := Earneds(deposits, snapshots, sums, scale), Earneds(deposits, snapshots, sums', later), Recents(deposits, p, scale);
    TotalGrows(before, after, perUnit as real, recents);
  }

  lemma SumsOk(sums: map<nat, nat>, scale: nat, perUnit: nat, p: nat, later: nat)
    requires (forall k | k in sums :: k <= scale) && scale <= later
    ensures forall k | k in SumsAfter(sums, scale, perUnit, p) :: k <= later
  {
  }

  /** Entries that each grow by a multiple of another table's. */
  lemma TotalGrows(before: map<Address, real>, after: map<Address, real>, g: real, x: map<Address, real>)
    requires before.Keys == after.Keys == x.Keys
    requires forall k | k in before :: Times(after[k] - before[k], g, x[k])
    ensures Times(Total(after) - Total(before), g, Total(x))
  {
    hide Times, Total;
    var more := map k | k in before :: after[k] - before[k];
    TotalAdd(after, before, more);
    TotalTimes(more, g, x);
  }

  /** The snapshots of the sums when `x` has a fresh deposit `d`, or none when nothing is left. */
  function SnapshotsAfter(snapshots: map<Address, nat>, x: Address, d: Deposit, s: nat): map<Address, nat> {
    if d.initial == 0 then snapshots - {x} else snapshots[x := s]
  }

  /** A fresh deposit has earned nothing yet, the others keep what they have. */
  lemma SettledEarned(deposits: map<Address, Deposit>, snapshots: map<Address, nat>, sums: map<nat, nat>, scale: nat, x: Address, d: Deposit)
    requires SnapshotsOk(deposits, snapshots, sums, scale) && d.P > 0 && d.scale == scale
    ensures var later, snapshots' := Settled(deposits, x, d), SnapshotsAfter(snapshots, x, d, SumAt(sums, scale));
            SnapshotsOk(later, snapshots', sums, scale)
            && Total(Earneds(later, snapshots', sums, scale))
               == Total(Earneds(deposits, snapshots, sums, scale)) - (if x in deposits then Earned(deposits[x], snapshots[x], sums) else 0.0)
  {
    var before, s := Earneds(deposits, snapshots, sums, scale), SumAt(sums, scale);
    SettledOk(deposits, snapshots, sums, scale, x, d);
    SettledTable(deposits, snapshots, sums, scale, x, d, s);
    hide *;
    TotalUpdate(before, x, 0.0);
    DroppedWorth(before, x);
    EarnedsAt(deposits, snapshots, sums, scale, x);
  }

  lemma EarnedsAt(deposits: map<Address, Deposit>, snapshots: map<Address, nat>, sums: map<nat, nat>, scale: nat, x: Address)
    requires SnapshotsOk(deposits, snapshots, sums, scale)
    ensures x in Earneds(deposits, snapshots, sums, scale) <==> x in deposits
    ensures x in deposits ==> deposits[x].P > 0 && x in snapshots && snapshots[x] <= SumAt(sums, deposits[x].scale)
                              && Earneds(deposits, snapshots, sums, scale)[x] == Earned(deposits[x], snapshots[x], sums)
  {
    hide SumAt, Earned;
  }

  lemma SettledTable(deposits: map<Address, Deposit>, snapshots: map<Address, nat>, sums: map<nat, nat>, scale: nat, x: Address, d: Deposit, s: nat)
    requires SnapshotsOk(deposits, snapshots, sums, scale) && d.P > 0 && d.scale == scale && s == SumAt(sums, scale)
    requires SnapshotsOk(Settled(deposits, x, d), SnapshotsAfter(snapshots, x, d, s), sums, scale)
    ensures var before := Earneds(deposits, snapshots, sums, scale);
            Earneds(Settled(deposits, x, d), SnapshotsAfter(snapshots, x, d, s), sums, scale)
            == if d.initial == 0 then before - {x} else before[x := 0.0]
  {
    assert SumAt(sums, scale + 1) == 0;
    NothingEarned(d, s, sums);
    hide SumAt, Earned;
  }

  lemma SettledOk(deposits: map<Address, Deposit>, snapshots: map<Address, nat>, sums: map<nat, nat>, scale: nat, x: Address, d: Deposit)
    requires SnapshotsOk(deposits, snapshots, sums, scale) && d.P > 0 && d.scale == scale
    ensures SnapshotsOk(Settled(deposits, x, d), SnapshotsAfter(snapshots, x, d, SumAt(sums, scale)), sums, scale)
  {
  }

  lemma NothingEarned(d: Deposit, s: nat, sums: map<nat, nat>)
    requires d.P > 0 && s == SumAt(sums, d.scale) && SumAt(sums, d.scale + 1) == 0
    ensures Earned(d, s, sums) == 0.0
  {
    Quotient(0.0, d.P as real);
  }

  /** By how much the gains with the fed-back error exceed the collateral, in units of 1e-18 wei. */
  ghost function Owed(earned: real, error: nat, collateral: nat): real {
    earned + error as real - (collateral * DECIMAL_PRECISION) as real
  }

  /** The part of the claims that exceeds the pool. */
  ghost function Over(claims: real, total: nat): real {
    if claims > total as real then claims - total as real else 0.0
  }

  /** The collateral that a gain per unit promises on claims that exceed the pool. */
  ghost function ShortOf(g: nat, claims: real, total: nat): real { g as real * Over(claims, total) }

  /** What is owed moves by the gain per unit on what the recent claims are more, or less, than the pool. */
  ghost predicate MovesOwed(owed: real, later: real, g: nat, recent: real, claims: real, total: nat) {
    recent <= claims && later == owed + g as real * (recent - total as real)
    && later - owed <= ShortOf(g, claims, total) && ShortOf(g, claims, total) >= 0.0
  }

  lemma OwedMoves(earned: real, error: nat, collateral: nat, recent: real, claims: real, total: nat, coll: nat, later: real)
    requires total > 0 && recent <= claims
    requires Times(later - earned, GainPerUnit(coll, error, total) as real, recent)
    ensures MovesOwed(Owed(earned, error, collateral), Owed(later, GainError(coll, error, total), collateral + coll),
                      GainPerUnit(coll, error, total), recent, claims, total)
  {
    var g := GainPerUnit(coll, error, total);
    GainSplits(coll, error, total);
    RealProduct(g, total, g * total);
    LessEqualTimes(recent - total as real, Over(claims, total), g as real);
    Product(g as real, Over(claims, total));
  }

  /** The whole effect of an offset on what is owed. */
  lemma OffsetMoves(deposits: map<Address, Deposit>, snapshots: map<Address, nat>, sums: map<nat, nat>, scale: nat, later: nat, p: nat,
                    total: nat, coll: nat, error: nat, error': nat, collateral: nat, g: nat, sums': map<nat, nat>)
    requires SnapshotsOk(deposits, snapshots, sums, scale) && later >= scale && total > 0
    requires g == GainPerUnit(coll, error, total) && error' == GainError(coll, error, total) && sums' == SumsAfter(sums, scale, g, p)
    ensures DepositsOk(deposits, scale) && SnapshotsOk(deposits, snapshots, sums', later)
    ensures MovesOwed(Owed(Total(Earneds(deposits, snapshots, sums, scale)), error, collateral),
                      Owed(Total(Earneds(deposits, snapshots, sums', later)), error', collateral + coll),
                      g, Total(Recents(deposits, p, scale)), Total(Worths(deposits, p, scale)), total)
  {
    hide *;
    DepositsFine(deposits, snapshots, sums, scale);
    RecentsAtMost(deposits, p, scale);
    AllEarnedGrow(deposits, snapshots, sums, scale, later, p, g);
    OwedMoves(Total(Earneds(deposits, snapshots, sums, scale)), error, collateral, Total(Recents(deposits, p, scale)),
              Total(Worths(deposits, p, scale)), total, coll, Total(Earneds(deposits, snapshots, sums', later)));
  }

  lemma DepositsFine(deposits: map<Address, Deposit>, snapshots: map<Address, nat>, sums: map<nat, nat>, scale: nat)
    requires SnapshotsOk(deposits, snapshots, sums, scale)
    ensures DepositsOk(deposits, scale)
  {
  }

  lemma GainsAtMost(deposits: map<Address, Deposit>, snapshots: map<Address, nat>, sums: map<nat, nat>, scale: nat, gains: map<Address, real>)
    requires SnapshotsOk(deposits, snapshots, sums, scale) && gains.Keys == deposits.Keys
    requires forall x | x in deposits :: gains[x] == GainOf(deposits[x], snapshots[x], sums) as real
    ensures Total(gains) * DECIMAL_PRECISION as real <= Total(Earneds(deposits, snapshots, sums, scale))
  {
    hide Total, Earned, GainOf;
    var e := DECIMAL_PRECISION as real;
    var scaled := map x | x in deposits :: e * gains[x];
    forall x | x in deposits ensures scaled[x] <= Earned(deposits[x], snapshots[x], sums) {
      GainAtMost(deposits[x], snapshots[x], sums);
      RealProduct(GainOf(deposits[x], snapshots[x], sums), DECIMAL_PRECISION, GainOf(deposits[x], snapshots[x], sums) * DECIMAL_PRECISION);
    }
    TotalTimes(scaled, e, gains);
    TotalMonotone(scaled, Earneds(deposits, snapshots, sums, scale));
  }

  /** Whole amounts that exceed a whole amount by less than one do not exceed it. */
  lemma NotAWeiMore(gains: real, earned: real, error: nat, collateral: nat, short: real)
    requires gains * DECIMAL_PRECISION as real <= earned && Owed(earned, error, collateral) <= short
    ensures gains <= collateral as real + short / DECIMAL_PRECISION as real
    ensures IsWhole(gains) && short < DECIMAL_PRECISION as real ==> gains <= collateral as real
  {
    RealProduct(collateral, DECIMAL_PRECISION, collateral * DECIMAL_PRECISION);
    Exceeds(gains, collateral as real, short, DECIMAL_PRECISION as real);
    if IsWhole(gains) && short < DECIMAL_PRECISION as real {
      WholeBelow(gains, collateral, short / DECIMAL_PRECISION as real);
    }
  }

  lemma WholeBelow(g: real, c: nat, q: real)
    requires IsWhole(g) && g <= c as real + q && q < 1.0
    ensures g <= c as real
  {
    assert g.Floor < c + 1;
  }

  lemma Exceeds(g: real, c: real, short: real, e: real)
    requires e > 0.0 && g * e <= c * e + short
    ensures g <= c + short / e && (short < e ==> short / e < 1.0)
  {
    var q := short / e;
    assert q * e == short;
    CancelLessEqual(e, g, c + q);
    if q >= 1.0 {
      LessEqualTimes(1.0, q, e);
    }
  }

  lemma NatIsWhole(n: nat)
    ensures IsWhole(n as real)
  {
  }

  lemma ShortAtMost(g: nat, claims: real, total: nat, slack: real)
    requires (claims - total as real) * DECIMAL_PRECISION as real <= slack && slack >= 0.0
    ensures ShortOf(g, claims, total) * DECIMAL_PRECISION as real <= g as real * slack
  {
    ScaledLess(Over(claims, total), DECIMAL_PRECISION as real, slack, g as real);
  }

  lemma ScaledLess(over: real, e: real, slack: real, g: real)
    requires over * e <= slack && g >= 0.0
    ensures g * over * e <= g * slack
  {
    LessEqualTimes(over * e, slack, g);
  }

  /** Paying a gain takes no more from the collateral than what was owed for it. */
  lemma PaysGain(deposits: map<Address, Deposit>, snapshots: map<Address, nat>, sums: map<nat, nat>, scale: nat, x: Address, d: Deposit,
                 gain: nat, error: nat, collateral: nat)
    requires SnapshotsOk(deposits, snapshots, sums, scale) && d.P > 0 && d.scale == scale && gain <= collateral
    requires gain == if x in deposits then GainOf(deposits[x], snapshots[x], sums) else 0
    ensures var later, snapshots' := Settled(deposits, x, d), SnapshotsAfter(snapshots, x, d, SumAt(sums, scale));
            SnapshotsOk(later, snapshots', sums, scale)
            && Owed(Total(Earneds(later, snapshots', sums, scale)), error, collateral - gain)
               <= Owed(Total(Earneds(deposits, snapshots, sums, scale)), error, collateral)
  {
    SettledEarned(deposits, snapshots, sums, scale, x, d);
    if x in deposits {
      GainAtMost(deposits[x], snapshots[x], sums);
    }
    hide Total, Earneds, Earned, GainOf, SumAt, Settled, SnapshotsAfter;
    assert (collateral - gain) * DECIMAL_PRECISION == collateral * DECIMAL_PRECISION - gain * DECIMAL_PRECISION;
  }

  /** The deposits and the collateral they have earned. */
  class GainPool {
    const lusd: WeiPool
    var scaleToSum: map<nat, nat>
    var snapshots: map<Address, nat>
    var lastCollateralError: nat
    var collateral: nat
    ghost var short: real

    ghost predicate Valid()
      reads this, lusd
    {
      lusd.Valid() && SnapshotsOk(lusd.deposits, snapshots, scaleToSum, lusd.currentScale) && Owing() <= short && short >= 0.0
    }

    ghost function Owing(): real
      requires SnapshotsOk(lusd.deposits, snapshots, scaleToSum, lusd.currentScale)
      reads this, lusd
    {
      Owed(Total(Earneds(lusd.deposits, snapshots, scaleToSum, lusd.currentScale)), lastCollateralError, collateral)
    }

    /** What depositor `x` would be paid. */
    function GainAt(x: Address): nat
      requires SnapshotsOk(lusd.deposits, snapshots, scaleToSum, lusd.currentScale)
      reads this, lusd
    {
      if x in lusd.deposits then GainOf(lusd.deposits[x], snapshots[x], scaleToSum) else 0
    }

    constructor ()
      ensures Valid() && fresh(lusd) && short == 0.0 && collateral == lastCollateralError == 0
      ensures scaleToSum == map[] && snapshots == map[]
      ensures lusd.deposits == map[] && lusd.totalLUSDDeposits == 0 && lusd.P == DECIMAL_PRECISION && lusd.currentScale == 0
      ensures lusd.lastLUSDLossError == 0
    {
      lusd := new WeiPool();
      scaleToSum, snapshots := map[], map[];
      lastCollateralError, collateral, short := 0, 0, 0.0;
      new;
      assert Earneds(lusd.deposits, snapshots, scaleToSum, lusd.currentScale) == map[];
    }

    /**
     The collateral is spread over the LUSD in the pool before the loss. What is owed beyond the collateral moves by
     the gain per unit on the difference between recent claims and pool: it grows exactly where claims are in excess.
     */
    method Offset(debt: nat, coll: nat) returns (ok: bool)
      requires Valid()
      modifies lusd, `scaleToSum, `lastCollateralError, `collateral, `short
      ensures Valid() && lusd.deposits == old(lusd.deposits)
      ensures ok <==> debt == 0 || old(lusd.totalLUSDDeposits) == 0
                      || Accepts(old(lusd.P), debt, old(lusd.lastLUSDLossError), old(lusd.totalLUSDDeposits))
      ensures if ok && debt > 0 && old(lusd.totalLUSDDeposits) > 0 then
                var total := old(lusd.totalLUSDDeposits);
                var g := GainPerUnit(coll, old(lastCollateralError), total);
                scaleToSum == SumsAfter(old(scaleToSum), old(lusd.currentScale), g, old(lusd.P))
                && lastCollateralError == GainError(coll, old(lastCollateralError), total) && collateral == old(collateral) + coll
                && MovesOwed(old(Owing()), Owing(), g, old(RecentClaims()), old(lusd.claims), total)
                && short == old(short) + ShortOf(g, old(lusd.claims), total)
                && lusd.totalLUSDDeposits == total - debt
                && lusd.lastLUSDLossError == LossError(debt, old(lusd.lastLUSDLossError), total)
                && lusd.currentScale >= old(lusd.currentScale)
                && ScaledProduct(old(lusd.P), LossFactor(debt, old(lusd.lastLUSDLossError), total))
                   == (lusd.P, lusd.currentScale - old(lusd.currentScale))
              else unchanged(this) && unchanged(lusd)
    {
      hide Total, Earneds, Recents, Worths, Owed, GainPerUnit, GainError, LossError, LossFactor, ScaledProduct, SumsAfter,
           SnapshotsOk, WeiPool.Valid, Accepts, ClaimsAfter, Scaled, StaysCovered, ShortOf;
      PoolFacts();
      var total, p, scale := lusd.totalLUSDDeposits, lusd.P, lusd.currentScale;
      ok := lusd.Offset(debt);
      if !ok || debt == 0 || total == 0 {
        return;
      }
      var perUnit := GainPerUnit(coll, lastCollateralError, total);
      var sums := SumsAfter(scaleToSum, scale, perUnit, p);
      OffsetMoves(lusd.deposits, snapshots, scaleToSum, scale, lusd.currentScale, p, total, coll, lastCollateralError,
                  GainError(coll, lastCollateralError, total), collateral, perUnit, sums);
      scaleToSum := sums;
      short := short + ShortOf(perUnit, old(lusd.claims), total);
      lastCollateralError, collateral := GainError(coll, lastCollateralError, total), collateral + coll;
    }

    /** The claims that take part in the next gain. */
    ghost function RecentClaims(): real
      requires DepositsOk(lusd.deposits, lusd.currentScale)
      reads this, lusd
    {
      Total(Recents(lusd.deposits, lusd.P, lusd.currentScale))
    }

    lemma PoolFacts()
      requires Valid()
      ensures DepositsOk(lusd.deposits, lusd.currentScale) && lusd.P > 0
      ensures lusd.claims == Total(Worths(lusd.deposits, lusd.P, lusd.currentScale))
    {
    }

    /** Fees do not touch the gains. */
    method DistributeFees(gain: nat) returns (ok: bool)
      requires Valid()
      modifies lusd
      ensures Valid() && lusd.deposits == old(lusd.deposits) && (ok <==> gain == 0 || old(lusd.totalLUSDDeposits) > 0)
      ensures Owing() == old(Owing())
    {
      hide Total, Earneds, Worths, Owed, WeiPool.Valid, ClaimsAfter, RaisedProduct, GainPerUnit, GainError, GrownSlack;
      ok := lusd.DistributeFees(gain);
    }

    /** A top-up is refused when the collateral cannot pay the gain; else the gain is paid and the snapshot renewed. */
    method Provide(x: Address, amount: nat) returns (ok: bool)
      requires Valid()
      modifies lusd`totalLUSDDeposits, lusd`deposits, lusd`claims, `snapshots, `collateral
      ensures Valid() && (ok <==> amount > 0 && old(GainAt(x)) <= old(collateral))
      ensures if ok then
                collateral == old(collateral) - old(GainAt(x)) && Owing() <= old(Owing())
                && snapshots == old(snapshots)[x := SumAt(scaleToSum, lusd.currentScale)]
                && lusd.totalLUSDDeposits == old(lusd.totalLUSDDeposits) + amount
                && lusd.deposits == old(lusd.deposits)[x := Deposit(old(lusd.CompoundedOf(x)) + amount, lusd.P, lusd.currentScale)]
              else unchanged(this) && unchanged(lusd)
    {
      hide Total, Earneds, Worths, Owed, WeiPool.Valid, WeiPool.CompoundedOf, SnapshotsOk, GainOf, SumAt;
      PoolFacts();
      var gain := GainAt(x);
      if amount == 0 || gain > collateral {
        return false;
      }
      ghost var d := Deposit(lusd.CompoundedOf(x) + amount, lusd.P, lusd.currentScale);
      PaysGain(lusd.deposits, snapshots, scaleToSum, lusd.currentScale, x, d, gain, lastCollateralError, collateral);
      ok := lusd.Provide(x, amount);
      snapshots := snapshots[x := SumAt(scaleToSum, lusd.currentScale)];
      collateral := collateral - gain;
    }

    /** A withdrawal is refused exactly when there is no deposit or the collateral cannot pay the gain. */
    method Withdraw(x: Address, amount: nat) returns (ok: bool, paid: nat)
      requires Valid()
      modifies lusd`totalLUSDDeposits, lusd`deposits, lusd`claims, `snapshots, `collateral
      ensures Valid() && (ok <==> x in old(lusd.deposits) && old(GainAt(x)) <= old(collateral))
      ensures if ok then
                collateral == old(collateral) - old(GainAt(x)) && Owing() <= old(Owing())
                && paid == Min(Min(amount, Positive(old(lusd.totalLUSDDeposits) - MIN_LUSD_IN_SP)), old(lusd.CompoundedOf(x)))
                && lusd.totalLUSDDeposits == old(lusd.totalLUSDDeposits) - paid
                && var d := Deposit(old(lusd.CompoundedOf(x)) - paid, lusd.P, lusd.currentScale);
                   lusd.deposits == Settled(old(lusd.deposits), x, d)
                   && snapshots == SnapshotsAfter(old(snapshots), x, d, SumAt(scaleToSum, lusd.currentScale))
              else unchanged(this) && unchanged(lusd)
    {
      hide Total, Earneds, Worths, Owed, WeiPool.Valid, WeiPool.CompoundedOf, SnapshotsOk, GainOf, SumAt;
      PoolFacts();
      var gain := GainAt(x);
      if x !in lusd.deposits || gain > collateral {
        return false, 0;
      }
      ghost var before := lusd.deposits;
      var kept := lusd.CompoundedOf(x);
      ok, paid := lusd.Withdraw(x, amount);
      var d := Deposit(kept - paid, lusd.P, lusd.currentScale);
      PaysGain(before, snapshots, scaleToSum, lusd.currentScale, x, d, gain, lastCollateralError, collateral);
      snapshots := SnapshotsAfter(snapshots, x, d, SumAt(scaleToSum, lusd.currentScale));
      collateral := collateral - gain;
    }

    /** All gains together exceed the collateral by at most the shortage; below one wei of shortage they never do. */
    lemma GainsCovered()
      requires Valid()
      ensures Total(Gains()) <= collateral as real + short / DECIMAL_PRECISION as real
      ensures short < DECIMAL_PRECISION as real ==> Total(Gains()) <= collateral as real
      ensures short < DECIMAL_PRECISION as real ==> forall x :: GainAt(x) <= collateral
    {
      var gains := Gains();
      hide Total, GainOf, Earneds, Owed, IsWhole;
      GainsAtMost(lusd.deposits, snapshots, scaleToSum, lusd.currentScale, gains);
      forall x | x in gains ensures IsWhole(gains[x]) {
        NatIsWhole(GainAt(x));
      }
      TotalWhole(gains);
      NotAWeiMore(Total(gains), Total(Earneds(lusd.deposits, snapshots, scaleToSum, lusd.currentScale)), lastCollateralError, collateral, short);
      TotalNonNegative(gains);
      assert forall x | x in gains :: gains[x] == GainAt(x) as real;
    }

    /** The next offset adds at most its gain per unit on the excess of claims that truncation allows. */
    lemma ShortageBounded(g: nat)
      requires Valid()
      ensures ShortOf(g, lusd.claims, lusd.totalLUSDDeposits) * DECIMAL_PRECISION as real <= g as real * lusd.slack
    {
      hide SnapshotsOk, Owed, Covered, DepositsOk, Total;
      lusd.NearlyCovered();
      ShortAtMost(g, lusd.claims, lusd.totalLUSDDeposits, lusd.slack);
    }

    ghost function Gains(): map<Address, real>
      requires SnapshotsOk(lusd.deposits, snapshots, scaleToSum, lusd.currentScale)
      reads this, lusd
    {
      map x | x in lusd.deposits :: GainAt(x) as real
    }
  }

  // ----- a gain that the collateral does not cover -----

  const ONE_DEPOSIT := Deposit(10000 * DECIMAL_PRECISION, DECIMAL_PRECISION, 0)

  /** A pool with one deposit, made before any offset. */
  datatype Stage = Stage(sums: map<nat, nat>, collateral: nat, gainError: nat, P: nat, total: nat, lossError: nat)

  ghost predicate InStage(pool: GainPool, s: Stage)
    reads pool, pool.lusd
  {
    pool.Valid() && pool.snapshots == map[1 := 0] && pool.lusd.deposits == map[1 := ONE_DEPOSIT] && pool.lusd.currentScale == 0
    && s == Stage(pool.scaleToSum, pool.collateral, pool.lastCollateralError, pool.lusd.P, pool.lusd.totalLUSDDeposits, pool.lusd.lastLUSDLossError)
  }

  /** An accepted offset without a change of scale takes the pool from one stage to the other. */
  ghost predicate Follows(s: Stage, debt: nat, coll: nat, later: Stage) {
    0 < debt && debt + MIN_LUSD_IN_SP <= s.total && later.P > 0
    && ScaledProduct(s.P, LossFactor(debt, s.lossError, s.total)) == (later.P, 0)
    && later.sums == SumsAfter(s.sums, 0, GainPerUnit(coll, s.gainError, s.total), s.P) && later.collateral == s.collateral + coll
    && later.gainError == GainError(coll, s.gainError, s.total) && later.total == s.total - debt
    && later.lossError == LossError(debt, s.lossError, s.total)
  }

  method NextStage(pool: GainPool, debt: nat, coll: nat, ghost s: Stage, ghost later: Stage)
    requires InStage(pool, s) && Follows(s, debt, coll, later)
    modifies pool, pool.lusd
    ensures InStage(pool, later)
  {
    hide LossFactor, LossError, ScaledProduct, ClaimsAfter, Covered, Scaled, Worths, Total, SumsAfter, SumAt, GainPerUnit, GainError,
         Earneds, Recents, MovesOwed, ShortOf, StaysCovered, WeiPool.Valid, SnapshotsOk;
    var ok := pool.Offset(debt, coll);
  }

  const THIRD_DEBT: nat := 2700 * DECIMAL_PRECISION
  const FIRST_COLL: nat := 18 * DECIMAL_PRECISION
  const SECOND_COLL: nat := 19 * DECIMAL_PRECISION
  const THIRD_COLL: nat := 23242 * 1000000000000000

  ghost function Start(): Stage { Stage(map[], 0, 0, DECIMAL_PRECISION, 10000 * DECIMAL_PRECISION, 0) }

  ghost function First(): Stage {
    Stage(SumsAfter(map[], 0, 1800000000000000, DECIMAL_PRECISION), FIRST_COLL, 0, 644737177102699701,
          10000 * DECIMAL_PRECISION - FIRST_DEBT, 8830 * DECIMAL_PRECISION)
  }

  ghost function Second(): Stage {
    Stage(SumsAfter(First().sums, 0, 2946937244317385, 644737177102699701), FIRST_COLL + SECOND_COLL, 3266185500246658640450,
          275676082915954805, 10000 * DECIMAL_PRECISION - FIRST_DEBT - SECOND_DEBT, 173960626329307340730)
  }

  ghost function Third(): Stage {
    Stage(SumsAfter(Second().sums, 0, 8430909114116286, 275676082915954805), FIRST_COLL + SECOND_COLL + THIRD_COLL, 381123630850070052,
          5676082915954804, 10000 * DECIMAL_PRECISION - FIRST_DEBT - SECOND_DEBT - THIRD_DEBT, 832075018577736798699)
  }

  lemma LossesOfRun()
    ensures var total := 10000 * DECIMAL_PRECISION - FIRST_DEBT - SECOND_DEBT;
            LossError(SECOND_DEBT, 8830 * DECIMAL_PRECISION, total + SECOND_DEBT) == 173960626329307340730
            && LossFactor(THIRD_DEBT, 173960626329307340730, total) == 20589682122279967
            && ScaledProduct(275676082915954805, 20589682122279967) == (5676082915954804, 0)
            && LossError(THIRD_DEBT, 173960626329307340730, total) == 832075018577736798699
            && THIRD_DEBT + MIN_LUSD_IN_SP <= total
  {
  }

  lemma GainsOfRun()
    ensures GainPerUnit(FIRST_COLL, 0, 10000 * DECIMAL_PRECISION) == 1800000000000000
    ensures GainError(FIRST_COLL, 0, 10000 * DECIMAL_PRECISION) == 0
    ensures var left := 10000 * DECIMAL_PRECISION - FIRST_DEBT;
            GainPerUnit(SECOND_COLL, 0, left) == 2946937244317385 && GainError(SECOND_COLL, 0, left) == 3266185500246658640450
    ensures var left := 10000 * DECIMAL_PRECISION - FIRST_DEBT - SECOND_DEBT;
            GainPerUnit(THIRD_COLL, 3266185500246658640450, left) == 8430909114116286
            && GainError(THIRD_COLL, 3266185500246658640450, left) == 381123630850070052
  {
  }

  lemma StagesFollow()
    ensures Follows(Start(), FIRST_DEBT, FIRST_COLL, First())
    ensures Follows(First(), SECOND_DEBT, SECOND_COLL, Second())
    ensures Follows(Second(), THIRD_DEBT, THIRD_COLL, Third())
  {
    OvershootingSteps();
    LossesOfRun();
    GainsOfRun();
    hide SumsAfter, LossError, LossFactor, ScaledProduct, GainPerUnit, GainError;
  }

  lemma SumsOfRun(g: nat, h: nat, i: nat, p: nat, q: nat, r: nat)
    ensures SumAt(SumsAfter(SumsAfter(SumsAfter(map[], 0, g, p), 0, h, q), 0, i, r), 0) == g * p + h * q + i * r
    ensures SumAt(SumsAfter(SumsAfter(SumsAfter(map[], 0, g, p), 0, h, q), 0, i, r), 1) == 0
  {
  }

  lemma GainOfRun()
    ensures GainOf(ONE_DEPOSIT, 0, Third().sums) == Third().collateral + 12
  {
    SumsOfRun(1800000000000000, 2946937244317385, 8430909114116286, DECIMAL_PRECISION, 644737177102699701, 275676082915954805);
    hide SumsAfter, SumAt;
  }

  /**
   One depositor and three accepted offsets. The second leaves the claim above the pool, so the third promises more
   collateral than it brings: the gain is 12 wei more than all the collateral, and the withdrawal reverts.
   */
  method UnpayableGain() returns (pool: GainPool, ok: bool)
    ensures fresh(pool) && pool.Valid() && pool.lusd.deposits.Keys == {1}
    ensures pool.GainAt(1) == pool.collateral + 12 && !ok
  {
    StagesFollow();
    GainOfRun();
    hide LossFactor, LossError, ScaledProduct, Worths, Total, SumsAfter, GainPerUnit, GainError, Earneds, SnapshotsOk, WeiPool.Valid,
         Follows, GainOf, First, Second, Third;
    pool := new GainPool();
    ok := pool.Provide(1, 10000 * DECIMAL_PRECISION);
    assert pool.lusd.deposits == map[1 := ONE_DEPOSIT] && pool.snapshots == map[1 := 0];
    NextStage(pool, FIRST_DEBT, FIRST_COLL, Start(), First());
    NextStage(pool, SECOND_DEBT, SECOND_COLL, First(), Second());
    NextStage(pool, THIRD_DEBT, THIRD_COLL, Second(), Third());
    var paid;
    ok, paid := pool.Withdraw(1, 0);
  }
}
