/**
 Redemptions over the two trove lists, in wei and at accumulated rates of one. Lists run from the
 lowest ratio upwards. Total ratios are compared exactly, by cross-multiplication.
 */
module Redemptions {
  import opened Arithmetic
  import FeeDecay
  import opened Liquidations
  import opened Protocol

  datatype Position = Position(debt: nat, coll: nat)

  /** What one trove gives up: the LUSD lot, the collateral paid for it, the fee, and what stays behind with the fee. */
  datatype Single = Single(lot: nat, collateralLot: nat, fee: nat, newDebt: nat, newColl: nat)

  function TotalDebt(s: seq<Position>): nat { if s == [] then 0 else s[0].debt + TotalDebt(s[1..]) }
  function TotalColl(s: seq<Position>): nat { if s == [] then 0 else s[0].coll + TotalColl(s[1..]) }

  /** `t` has at most the ratio of `u`. */
  predicate NotAbove(t: Position, u: Position) {
    t.coll * u.debt <= u.coll * t.debt
  }

  predicate Ascending(s: seq<Position>) {
    forall i, j | 0 <= i < j < |s| :: NotAbove(s[i], s[j])
  }

  /** The ratio of `t` is at least `bound`, a fraction of the precision. */
  predicate RatioAtLeast(t: Position, bound: nat, m: Market) {
    t.coll * m.price * DECIMAL_PRECISION >= bound * (t.debt * m.par)
  }

  /** The total ratio did not fall when the system went from the first pair of totals to the second. */
  predicate NotLowered(coll: nat, debt: nat, coll': nat, debt': nat) {
    coll' * debt >= coll * debt'
  }

  predicate Redeemable(t: Position, m: Market) {
    t.debt > LUSD_GAS_COMPENSATION && RatioAtLeast(t, MCR, m)
  }

  /** The collateral a lot is worth. */
  function Gross(lot: nat, m: Market): nat
    requires m.price > 0
  {
    lot * m.par / m.price
  }

  lemma LotCovered(t: Position, lot: nat, m: Market)
    requires m.price > 0 && Redeemable(t, m) && lot <= t.debt
    ensures Gross(lot, m) <= t.coll && Gross(lot, m) * m.price <= lot * m.par
  {
    WorthMore(t, m);
    hide Redeemable, RatioAtLeast;
    LotWorth(lot, t.debt, m.par, t.coll * m.price);
    FloorCovered(lot * m.par, m.price, t.coll);
  }

  lemma LotWorth(lot: nat, debt: nat, par: nat, worth: nat)
    requires lot <= debt && debt * par <= worth
    ensures lot * par <= worth
  {
    Monotone(lot, debt, par);
  }

  lemma FloorCovered(worth: nat, price: nat, coll: nat)
    requires price > 0 && worth <= coll * price
    ensures worth / price <= coll && worth / price * price <= worth
  {
    DivBounds(worth, price);
    Cancel(worth / price, coll, price);
  }

  /** A trove above the minimum ratio is worth at least its debt. */
  lemma WorthMore(t: Position, m: Market)
    requires RatioAtLeast(t, MCR, m)
    ensures t.coll * m.price >= t.debt * m.par
  {
  }

  function WithoutFee(gross: nat, rate: nat): (net: nat)
    requires rate <= DECIMAL_PRECISION
    ensures net <= gross
  {
    FractionAtMost(gross, rate, DECIMAL_PRECISION);
    gross - gross * rate / DECIMAL_PRECISION
  }

  /** The collateral for a lot, at face value, without the fee: that stays in the trove. */
  function NetColl(lot: nat, m: Market, rate: nat): nat
    requires m.price > 0 && rate <= DECIMAL_PRECISION
  {
    WithoutFee(Gross(lot, m), rate)
  }

  lemma NetCovered(t: Position, lot: nat, m: Market, rate: nat)
    requires m.price > 0 && Redeemable(t, m) && lot <= t.debt && rate <= DECIMAL_PRECISION
    ensures NetColl(lot, m, rate) <= Gross(lot, m) <= t.coll && Gross(lot, m) * m.price <= lot * m.par
  {
    hide Gross, Redeemable, WithoutFee;
    LotCovered(t, lot, m);
  }

  /** Collateral that is worth at most the LUSD it is given for. */
  predicate AtMostFace(coll: nat, lot: nat, m: Market) {
    coll * m.price <= lot * m.par
  }

  /** The trove gives up what the lot takes; the collateral paid and the fee are worth at most the lot. */
  predicate Takes(r: Single, t: Position, m: Market) {
    r.newDebt + r.lot == t.debt && r.newColl + r.collateralLot == t.coll
    && AtMostFace(r.collateralLot + r.fee, r.lot, m)
  }

  /** Redeems up to `maxLUSD` against the debt above the reserve; the fee stays in the trove. */
  function RedeemFrom(t: Position, maxLUSD: nat, m: Market, rate: nat): (r: Single)
    requires m.price > 0 && Redeemable(t, m) && rate <= DECIMAL_PRECISION
    ensures Takes(r, t, m) && r.fee == Gross(r.lot, m) * rate / DECIMAL_PRECISION
    ensures r.lot <= maxLUSD && r.newDebt >= LUSD_GAS_COMPENSATION && (r.newDebt > LUSD_GAS_COMPENSATION ==> r.lot == maxLUSD)
    ensures r.fee == (r.collateralLot + r.fee) * rate / DECIMAL_PRECISION && r.lot * m.par < (r.collateralLot + r.fee + 1) * m.price
  {
    var lot := Min(maxLUSD, t.debt - LUSD_GAS_COMPENSATION);
    var net := NetColl(lot, m, rate);
    NetCovered(t, lot, m, rate);
    DivBounds(lot * m.par, m.price);
    Single(lot, net, Gross(lot, m) - net, t.debt - lot, t.coll - net)
  }

  // ----- ratios as the contract compares them

  const UINT_MAX: nat := 115792089237316195423570985008687907853269984665640564039457584007913129639935

  /** The truncated ratio of a trove; without debt it is infinite. */
  function ICR(t: Position, m: Market): nat {
    if t.debt * m.par == 0 then UINT_MAX else t.coll * m.price * DECIMAL_PRECISION / (t.debt * m.par)
  }

  /** Truncation does not matter against a bound. */
  lemma ICRAtLeast(t: Position, bound: nat, m: Market)
    requires t.debt > 0 && m.par > 0
    ensures ICR(t, m) >= bound <==> RatioAtLeast(t, bound, m)
  {
    Positive(t.debt, m.par);
    FloorAtLeast(t.coll * m.price * DECIMAL_PRECISION, t.debt * m.par, bound);
  }

  lemma Positive(x: nat, y: nat)
    ensures x > 0 && y > 0 ==> x * y > 0
  {
  }

  lemma FloorAtLeast(x: nat, y: nat, q: nat)
    requires y > 0
    ensures x / y >= q <==> x >= q * y
  {
    DivBounds(x, y);
    Monotone(q, x / y, y);
    Monotone(x / y + 1, q, y);
  }

  /** A lower truncated ratio is a lower ratio; ties may be either way. */
  lemma LowerICR(t: Position, u: Position, m: Market)
    requires t.debt > 0 && u.debt > 0 && m.price > 0 && m.par > 0 && ICR(t, m) < ICR(u, m)
    ensures NotAbove(t, u) && !NotAbove(u, t)
  {
    var k := m.price * DECIMAL_PRECISION;
    ICRBounds(t, m, t.coll * k, t.debt * m.par);
    ICRBounds(u, m, u.coll * k, u.debt * m.par);
    var q, p := ICR(t, m), ICR(u, m);
    hide ICR;
    FloorCross(t.coll * k, t.debt * m.par, u.coll * k, u.debt * m.par, q, p);
    CrossLess(t.coll, t.debt, u.coll, u.debt, k, m.par);
  }

  lemma ICRBounds(t: Position, m: Market, x: nat, y: nat)
    requires t.debt > 0 && m.par > 0 && x == t.coll * (m.price * DECIMAL_PRECISION) && y == t.debt * m.par
    ensures y > 0 && ICR(t, m) * y <= x < (ICR(t, m) + 1) * y
  {
    Positive(t.debt, m.par);
    assert t.coll * m.price * DECIMAL_PRECISION == x;
    DivBounds(x, y);
  }

  lemma FloorCross(a: nat, b: nat, c: nat, d: nat, q: nat, p: nat)
    requires b > 0 && d > 0 && a < (q + 1) * b && p * d <= c && q < p
    ensures a * d < c * b
  {
    Monotone(q + 1, p, b);
    Strictly(a, p * b, d);
    Monotone(p * d, c, b);
    Swap(p, b, d);
  }

  lemma CrossLess(collT: nat, debtT: nat, collU: nat, debtU: nat, k: nat, par: nat)
    requires collT * k * (debtU * par) < collU * k * (debtT * par)
    ensures collT * debtU < collU * debtT
  {
    assert collT * k * (debtU * par) == (collT * debtU) * (k * par);
    assert collU * k * (debtT * par) == (collU * debtT) * (k * par);
    Monotone(collU * debtT, collT * debtU, k * par);
  }

  lemma ICRMonotone(t: Position, u: Position, m: Market)
    requires t.debt > 0 && u.debt > 0 && m.price > 0 && m.par > 0 && NotAbove(t, u)
    ensures ICR(t, m) <= ICR(u, m)
  {
    if ICR(u, m) < ICR(t, m) {
      LowerICR(u, t, m);
    }
  }

  // ----- one step and the total ratio

  lemma PartialRaisesRatio(coll: nat, debt: nat, lot: nat, collLot: nat, m: Market)
    requires m.price > 0 && collLot <= coll && lot <= debt
    requires coll * m.price >= debt * m.par && collLot * m.price <= lot * m.par
    ensures NotLowered(coll, debt, coll - collLot, debt - lot)
  {
    Monotone(collLot * m.price, lot * m.par, debt);
    Monotone(debt * m.par, coll * m.price, lot);
    Swap(collLot, m.price, debt);
    Swap(lot, m.par, debt);
    Swap(coll, m.price, lot);
    Cancel(collLot * debt, coll * lot, m.price);
    assert (coll - collLot) * debt - coll * (debt - lot) == coll * lot - collLot * debt;
  }

  lemma Strictly(a: nat, b: nat, d: nat)
    requires a < b && d > 0
    ensures a * d < b * d
  {
  }

  lemma Swap(x: nat, y: nat, z: nat)
    ensures x * y * z == x * z * y && x * y * z == z * y * x
  {
  }

  lemma Cancel(x: int, y: int, p: nat)
    requires p > 0 && x * p <= y * p
    ensures x <= y
  {
    Monotone(y + 1, x, p);
    assert (y + 1) * p == y * p + p;
  }

  /** Taking a whole trove out lowers the total ratio exactly when its own ratio is above the total. */
  lemma ClosingRaisesRatio(coll: nat, debt: nat, t: Position)
    requires t.coll <= coll && t.debt <= debt
    ensures NotLowered(coll, debt, coll - t.coll, debt - t.debt) <==> NotAbove(t, Position(debt, coll))
  {
    assert (coll - t.coll) * debt - coll * (debt - t.debt) == coll * t.debt - t.coll * debt;
  }

  lemma {:induction false} LowestBelowTotal(t: Position, s: seq<Position>)
    requires Lowest(t, s)
    ensures NotAbove(t, Position(TotalDebt(s), TotalColl(s)))
  {
    if s != [] {
      LowestBelowTotal(t, s[1..]);
      assert NotAbove(t, s[0]);
      assert t.coll * (s[0].debt + TotalDebt(s[1..])) == t.coll * s[0].debt + t.coll * TotalDebt(s[1..]);
      assert (s[0].coll + TotalColl(s[1..])) * t.debt == s[0].coll * t.debt + TotalColl(s[1..]) * t.debt;
    }
  }

  lemma NotLoweredTrans(coll: nat, debt: nat, coll1: nat, debt1: nat, coll2: nat, debt2: nat)
    requires debt1 > 0 && NotLowered(coll, debt, coll1, debt1) && NotLowered(coll1, debt1, coll2, debt2)
    ensures NotLowered(coll, debt, coll2, debt2)
  {
    assert coll2 * debt * debt1 == coll2 * debt1 * debt >= coll1 * debt2 * debt == coll1 * debt * debt2 >= coll * debt1 * debt2;
    Cancel(coll * debt2, coll2 * debt, debt1);
  }

  // ----- the two lists

  /** Shielded troves can be redeemed against only below this ratio. */
  predicate BelowHCR(t: Position, m: Market) {
    !RatioAtLeast(t, HCR, m)
  }

  /** The next shielded trove is at the minimum ratio or above, and below the shield. */
  predicate Eligible(shielded: seq<Position>, m: Market) {
    shielded != [] && RatioAtLeast(shielded[0], MCR, m) && BelowHCR(shielded[0], m)
  }

  /** The next trove is the one with the lower ratio of the two eligible candidates; ties prefer the base list. */
  predicate PickBase(bases: seq<Position>, shielded: seq<Position>, m: Market) {
    bases != [] && RatioAtLeast(bases[0], MCR, m) && (!Eligible(shielded, m) || ICR(bases[0], m) <= ICR(shielded[0], m))
  }

  predicate PickShielded(bases: seq<Position>, shielded: seq<Position>, m: Market) {
    !PickBase(bases, shielded, m) && Eligible(shielded, m)
  }

  predicate HasReserves(s: seq<Position>) {
    forall i | 0 <= i < |s| :: s[i].debt > LUSD_GAS_COMPENSATION
  }

  predicate AllAtMCR(s: seq<Position>, m: Market) {
    forall i | 0 <= i < |s| :: RatioAtLeast(s[i], MCR, m)
  }

  ghost predicate Lowest(t: Position, s: seq<Position>) {
    forall i | 0 <= i < |s| :: NotAbove(t, s[i])
  }

  /** The two lists, lowest ratio first. */
  datatype Lists = Lists(bases: seq<Position>, shielded: seq<Position>) {
    function Size(): nat { |bases| + |shielded| }
    function Debt(): nat { TotalDebt(bases) + TotalDebt(shielded) }
    function Coll(): nat { TotalColl(bases) + TotalColl(shielded) }

    predicate Picks(m: Market) {
      PickBase(bases, shielded, m) || PickShielded(bases, shielded, m)
    }

    predicate NextIsBase(m: Market) { PickBase(bases, shielded, m) }

    function Picked(m: Market): Position
      requires Picks(m)
    {
      if PickBase(bases, shielded, m) then bases[0] else shielded[0]
    }

    /** The picked trove is replaced, or removed when nothing replaces it. */
    function Replace(m: Market, instead: seq<Position>): Lists
      requires Picks(m)
    {
      if PickBase(bases, shielded, m) then Lists(instead + bases[1..], shielded) else Lists(bases, instead + shielded[1..])
    }

    /** Every trove owes more than its reserve. */
    predicate WithReserves() {
      HasReserves(bases) && HasReserves(shielded)
    }

    /** Both lists are in order, and no trove is below the minimum ratio. */
    ghost predicate Ordered(m: Market) {
      Ascending(bases) && Ascending(shielded) && AllAtMCR(bases, m) && AllAtMCR(shielded, m)
    }
  }

  /** Totals of the troves a sequence runs over and of those it passes over. */
  function Whole(skipped: Lists, l: Lists): Position {
    Position(skipped.Debt() + l.Debt(), skipped.Coll() + l.Coll())
  }

  ghost predicate RatioKept(from: Position, to: Position) {
    NotLowered(from.coll, from.debt, to.coll, to.debt)
  }

  predicate Worth(t: Position, m: Market) {
    t.coll * m.price >= t.debt * m.par
  }

  /** A trove not above the head of an ascending list is not above any of it. */
  lemma LowestOfNext(t: Position, s: seq<Position>)
    requires s != [] && NotAbove(t, s[0]) && Ascending(s) && HasReserves(s)
    ensures Lowest(t, s)
  {
    forall i | 0 <= i < |s| ensures NotAbove(t, s[i]) {
      if i > 0 {
        assert NotAbove(s[0], s[i]);
        Transitive(t, s[0], s[i]);
      }
    }
  }

  lemma Transitive(t: Position, u: Position, v: Position)
    requires u.debt > 0 && NotAbove(t, u) && NotAbove(u, v)
    ensures NotAbove(t, v)
  {
    assert t.coll * v.debt * u.debt == t.coll * u.debt * v.debt <= u.coll * t.debt * v.debt
        == u.coll * v.debt * t.debt <= v.coll * u.debt * t.debt == v.coll * t.debt * u.debt;
    Cancel(t.coll * v.debt, v.coll * t.debt, u.debt);
  }

  // ----- when closing keeps the total ratio

  /** A redemption of `amount` can close the trove at position `i` with all before it. */
  predicate Closable(s: seq<Position>, i: nat, amount: nat)
    requires i < |s|
  {
    TotalDebt(s[..i + 1]) <= amount + LUSD_GAS_COMPENSATION * (i + 1)
  }

  /** Not above the shielded troves it may be taken before: those out of reach, and those not below it as the contract compares. */
  ghost predicate NotAboveShields(t: Position, shielded: seq<Position>, m: Market) {
    forall j | 0 <= j < |shielded| && (!BelowHCR(shielded[j], m) || ICR(t, m) <= ICR(shielded[j], m)) :: NotAbove(t, shielded[j])
  }

  /** The trove is not above the total, or no trove is passed over and it is not above the shields. */
  ghost predicate MayClose(t: Position, total: Position, skips: bool, shielded: seq<Position>, m: Market) {
    NotAbove(t, total) || (!skips && NotAboveShields(t, shielded, m))
  }

  /** Every trove that a redemption of `amount` can close may be closed. */
  ghost predicate Safe(l: Lists, total: Position, skips: bool, amount: nat, m: Market) {
    (forall i | 0 <= i < |l.bases| :: Closable(l.bases, i, amount) ==> MayClose(l.bases[i], total, skips, l.shielded, m))
    && if skips then forall j | 0 <= j < |l.shielded| :: Closable(l.shielded, j, amount) ==> NotAbove(l.shielded[j], total)
       else l.Ordered(m)
  }

  /** In order, the picked trove has the lowest ratio of all that are left. */
  lemma PickedIsLowest(l: Lists, m: Market)
    requires m.price > 0 && m.par > 0 && l.Ordered(m) && l.WithReserves()
    ensures PickBase(l.bases, l.shielded, m) && NotAboveShields(l.bases[0], l.shielded, m) ==>
              Lowest(l.bases[0], l.bases) && Lowest(l.bases[0], l.shielded)
    ensures PickShielded(l.bases, l.shielded, m) ==> Lowest(l.shielded[0], l.bases) && Lowest(l.shielded[0], l.shielded)
  {
    if PickBase(l.bases, l.shielded, m) && NotAboveShields(l.bases[0], l.shielded, m) {
      forall j | 0 <= j < |l.shielded| ensures NotAbove(l.bases[0], l.shielded[j]) {
        BeforeShield(l, j, m);
      }
    }
    if PickShielded(l.bases, l.shielded, m) && l.bases != [] {
      LowerICR(l.shielded[0], l.bases[0], m);
      LowestOfNext(l.shielded[0], l.bases);
    }
    hide NotAbove, ICR;
  }

  /** A picked base trove comes before every shielded trove that is within reach. */
  lemma BeforeShield(l: Lists, j: nat, m: Market)
    requires m.price > 0 && m.par > 0 && l.Ordered(m) && l.WithReserves()
    requires PickBase(l.bases, l.shielded, m) && j < |l.shielded|
    ensures !BelowHCR(l.shielded[j], m) || ICR(l.bases[0], m) <= ICR(l.shielded[j], m)
  {
    hide NotAbove, RatioAtLeast, ICR;
    if j > 0 {
      assert NotAbove(l.shielded[0], l.shielded[j]);
      ICRMonotone(l.shielded[0], l.shielded[j], m);
    }
    ICRAtLeast(l.shielded[0], HCR, m);
    ICRAtLeast(l.shielded[j], HCR, m);
  }

  lemma ReplaceTotals(l: Lists, m: Market, t: Position)
    requires l.Picks(m)
    ensures var p := l.Picked(m);
            l.Replace(m, []).Debt() + p.debt == l.Debt() && l.Replace(m, []).Coll() + p.coll == l.Coll()
            && l.Replace(m, [t]).Debt() + p.debt == l.Debt() + t.debt
            && l.Replace(m, [t]).Coll() + p.coll == l.Coll() + t.coll
            && l.Replace(m, []).Size() + 1 == l.Size() && l.Replace(m, [t]).Size() == l.Size()
  {
    if PickBase(l.bases, l.shielded, m) {
      assert [] + l.bases[1..] == l.bases[1..] && ([t] + l.bases[1..])[1..] == l.bases[1..];
    } else {
      assert [] + l.shielded[1..] == l.shielded[1..] && ([t] + l.shielded[1..])[1..] == l.shielded[1..];
    }
  }

  lemma ReplaceKeeps(l: Lists, m: Market)
    requires l.Picks(m) && l.WithReserves()
    ensures l.Replace(m, []).WithReserves()
  {
    if PickBase(l.bases, l.shielded, m) {
      assert [] + l.bases[1..] == l.bases[1..];
    } else {
      assert [] + l.shielded[1..] == l.shielded[1..];
    }
  }

  /** What can be closed after the head can be closed with it. */
  lemma ClosableTail(s: seq<Position>, i: nat, amount: nat)
    requires i + 1 < |s| && s[0].debt <= amount + LUSD_GAS_COMPENSATION && s[0].debt >= LUSD_GAS_COMPENSATION
    requires Closable(s[1..], i, amount + LUSD_GAS_COMPENSATION - s[0].debt)
    ensures Closable(s, i + 1, amount)
  {
    assert s[..i + 2][1..] == s[1..][..i + 1];
  }

  lemma SafeTail(s: seq<Position>, amount: nat, lot: nat, i: nat)
    requires s != [] && lot <= amount && s[0].debt == lot + LUSD_GAS_COMPENSATION && i + 1 < |s|
    requires Closable(s[1..], i, amount - lot)
    ensures s[1..][i] == s[i + 1] && Closable(s, i + 1, amount)
  {
    ClosableTail(s, i, amount);
  }

  lemma FewerShields(t: Position, total: Position, skips: bool, shielded: seq<Position>, m: Market)
    requires shielded != [] && MayClose(t, total, skips, shielded, m)
    ensures MayClose(t, total, skips, shielded[1..], m)
  {
    hide NotAbove, BelowHCR, ICR;
    assert forall j | 0 <= j < |shielded[1..]| :: shielded[1..][j] == shielded[j + 1];
  }

  /** After the picked trove is closed, what is left is still safe to close with what remains of the amount. */
  lemma CloseKeepsSafe(l: Lists, total: Position, skips: bool, amount: nat, lot: nat, m: Market)
    requires l.Picks(m) && Safe(l, total, skips, amount, m)
    requires lot <= amount && l.Picked(m).debt == lot + LUSD_GAS_COMPENSATION
    ensures Safe(l.Replace(m, []), total, skips, amount - lot, m)
  {
    hide NotAbove, RatioAtLeast, ICR, BelowHCR, NotAboveShields, MayClose;
    var left := l.Replace(m, []);
    if PickBase(l.bases, l.shielded, m) {
      assert left.bases == l.bases[1..];
      forall i | 0 <= i < |left.bases| && Closable(left.bases, i, amount - lot)
        ensures MayClose(left.bases[i], total, skips, l.shielded, m)
      {
        SafeTail(l.bases, amount, lot, i);
      }
    } else {
      assert left.shielded == l.shielded[1..];
      forall i | 0 <= i < |left.bases| && Closable(left.bases, i, amount - lot)
        ensures MayClose(left.bases[i], total, skips, left.shielded, m)
      {
        FewerShields(l.bases[i], total, skips, l.shielded, m);
      }
      forall j | skips && 0 <= j < |left.shielded| && Closable(left.shielded, j, amount - lot)
        ensures NotAbove(left.shielded[j], total)
      {
        SafeTail(l.shielded, amount, lot, j);
      }
    }
  }

  /** The picked trove, if the amount can close it, is not above the total of all that is left. */
  lemma PickedNotAbove(skipped: Lists, l: Lists, total: Position, amount: nat, m: Market)
    requires m.price > 0 && m.par > 0 && l.WithReserves() && l.Picks(m) && total.debt > 0
    requires Safe(l, total, skipped.Size() > 0, amount, m) && RatioKept(total, Whole(skipped, l))
    requires l.Picked(m).debt <= amount + LUSD_GAS_COMPENSATION
    ensures NotAbove(l.Picked(m), Whole(skipped, l))
  {
    hide NotAboveShields, RatioAtLeast, TotalColl, Ascending, AllAtMCR;
    var p, base := l.Picked(m), PickBase(l.bases, l.shielded, m);
    HeadClosable(if base then l.bases else l.shielded, amount);
    hide Closable, PickBase, PickShielded, TotalDebt;
    if NotAbove(p, total) {
      Transitive(p, total, Whole(skipped, l));
    } else {
      NothingSkipped(skipped);
      PickedIsLowest(l, m);
      LowestBelowTotal(p, l.bases);
      LowestBelowTotal(p, l.shielded);
      BothTotals(p, TotalDebt(l.bases), TotalColl(l.bases), TotalDebt(l.shielded), TotalColl(l.shielded));
    }
  }

  lemma HeadClosable(s: seq<Position>, amount: nat)
    requires s != [] && s[0].debt <= amount + LUSD_GAS_COMPENSATION
    ensures Closable(s, 0, amount)
  {
    assert s[..1][1..] == [];
  }

  lemma NothingSkipped(skipped: Lists)
    ensures skipped.Size() == 0 ==> skipped.Debt() == 0 && skipped.Coll() == 0
  {
  }

  /** Closing the picked trove of a safe system does not lower its total ratio. */
  lemma CloseKeepsRatio(skipped: Lists, l: Lists, total: Position, amount: nat, m: Market)
    requires m.price > 0 && m.par > 0 && l.WithReserves() && l.Picks(m) && total.debt > 0
    requires Safe(l, total, skipped.Size() > 0, amount, m) && RatioKept(total, Whole(skipped, l))
    requires l.Picked(m).debt <= amount + LUSD_GAS_COMPENSATION
    ensures RatioKept(Whole(skipped, l), Whole(skipped, l.Replace(m, [])))
  {
    hide NotAbove, NotLowered, Safe, TotalDebt, TotalColl, PickBase, PickShielded, HasReserves;
    PickedNotAbove(skipped, l, total, amount, m);
    ReplaceTotals(l, m, l.Picked(m));
    ClosingRaisesRatio(Whole(skipped, l).coll, Whole(skipped, l).debt, l.Picked(m));
  }

  lemma BothTotals(t: Position, debt1: nat, coll1: nat, debt2: nat, coll2: nat)
    requires NotAbove(t, Position(debt1, coll1)) && NotAbove(t, Position(debt2, coll2))
    ensures NotAbove(t, Position(debt1 + debt2, coll1 + coll2))
  {
  }

  lemma WorthKept(from: Position, to: Position, m: Market)
    requires from.debt > 0 && RatioKept(from, to) && Worth(from, m)
    ensures Worth(to, m)
  {
    Monotone(from.coll * to.debt, to.coll * from.debt, m.price);
    Monotone(from.debt * m.par, from.coll * m.price, to.debt);
    Swap(from.coll, to.debt, m.price);
    Swap(to.coll, from.debt, m.price);
    Swap(from.debt, m.par, to.debt);
    Cancel(to.debt * m.par, to.coll * m.price, from.debt);
  }

  lemma Distribute(x: nat, y: nat, k: nat)
    ensures (x + y) * k == x * k + y * k
  {
  }

  // ----- the sequence

  /** Where a redemption sequence stands. */
  datatype Progress = Progress(
    remaining: nat, redeemed: nat, closed: nat, partials: nat, collDrawn: nat, fee: nat, surplus: nat)

  function Begin(amount: nat): Progress { Progress(amount, 0, 0, 0, 0, 0, 0) }

  /**
   Debt is accounted for by what was redeemed and the burnt reserves, collateral by what was drawn and kept for
   owners. What was drawn and the fee are worth at most what was redeemed.
   */
  ghost predicate Booked(start: Lists, l: Lists, p: Progress, amount: nat, m: Market) {
    Balances(Total(start), start.Size(), Total(l), l.Size(), p, amount, m)
  }

  predicate Balances(from: Position, size: nat, to: Position, left: nat, p: Progress, amount: nat, m: Market) {
    to.debt + p.redeemed + LUSD_GAS_COMPENSATION * p.closed == from.debt
    && to.coll + p.collDrawn + p.surplus == from.coll
    && p.redeemed + p.remaining == amount && left + p.closed == size && p.partials <= 1
    && AtMostFace(p.collDrawn + p.fee, p.redeemed, m)
  }

  function Total(l: Lists): Position { Position(l.Debt(), l.Coll()) }

  function Close(l: Lists, p: Progress, r: Single, m: Market): (Lists, Progress)
    requires l.Picks(m) && r.lot <= p.remaining
  {
    (l.Replace(m, []),
     Progress(p.remaining - r.lot, p.redeemed + r.lot, p.closed + 1, p.partials, p.collDrawn + r.collateralLot, p.fee + r.fee,
              p.surplus + r.newColl))
  }

  function Shrink(l: Lists, p: Progress, r: Single, m: Market): (Lists, Progress)
    requires l.Picks(m) && r.lot <= p.remaining
  {
    (l.Replace(m, [Position(r.newDebt, r.newColl)]),
     Progress(p.remaining - r.lot, p.redeemed + r.lot, p.closed, p.partials + 1, p.collDrawn + r.collateralLot, p.fee + r.fee,
              p.surplus))
  }

  lemma CloseBooked(start: Lists, l: Lists, p: Progress, amount: nat, m: Market, r: Single)
    requires l.Picks(m) && Booked(start, l, p, amount, m) && r.lot <= p.remaining
    requires Takes(r, l.Picked(m), m) && r.newDebt == LUSD_GAS_COMPENSATION
    ensures Booked(start, Close(l, p, r, m).0, Close(l, p, r, m).1, amount, m)
  {
    ReplaceTotals(l, m, Position(r.newDebt, r.newColl));
    CloseBalances(Total(start), start.Size(), l, p, amount, m, r, l.Replace(m, []));
    hide Balances, Takes, TotalDebt, TotalColl, Lists.Replace, Lists.Picked, Lists.Debt, Lists.Coll, Lists.Size;
  }

  lemma CloseBalances(from: Position, size: nat, l: Lists, p: Progress, amount: nat, m: Market, r: Single, left: Lists)
    requires l.Picks(m) && Balances(from, size, Total(l), l.Size(), p, amount, m) && r.lot <= p.remaining
    requires Takes(r, l.Picked(m), m) && r.newDebt == LUSD_GAS_COMPENSATION
    requires left.Debt() + l.Picked(m).debt == l.Debt() && left.Coll() + l.Picked(m).coll == l.Coll() && left.Size() + 1 == l.Size()
    ensures Balances(from, size, Total(left), left.Size(), Close(l, p, r, m).1, amount, m)
  {
    hide PickBase, PickShielded, TotalDebt, TotalColl, Lists.Debt, Lists.Coll, Lists.Size, Lists.Replace, Lists.Picked, AtMostFace;
    PaidAtMost(p.collDrawn + p.fee, p.redeemed, r.collateralLot + r.fee, r.lot, m,
               p.collDrawn + r.collateralLot + (p.fee + r.fee), p.redeemed + r.lot);
  }

  lemma ShrinkBooked(start: Lists, l: Lists, p: Progress, amount: nat, m: Market, r: Single)
    requires l.Picks(m) && Booked(start, l, p, amount, m) && p.partials == 0 && r.lot <= p.remaining
    requires Takes(r, l.Picked(m), m)
    ensures Booked(start, Shrink(l, p, r, m).0, Shrink(l, p, r, m).1, amount, m)
  {
    ReplaceTotals(l, m, Position(r.newDebt, r.newColl));
    ShrinkBalances(Total(start), start.Size(), l, p, amount, m, r, l.Replace(m, [Position(r.newDebt, r.newColl)]));
    hide Balances, Takes, TotalDebt, TotalColl, Lists.Replace, Lists.Picked, Lists.Debt, Lists.Coll, Lists.Size;
  }

  lemma ShrinkBalances(from: Position, size: nat, l: Lists, p: Progress, amount: nat, m: Market, r: Single, left: Lists)
    requires l.Picks(m) && Balances(from, size, Total(l), l.Size(), p, amount, m) && p.partials == 0 && r.lot <= p.remaining
    requires Takes(r, l.Picked(m), m) && left.Size() == l.Size()
    requires left.Debt() + l.Picked(m).debt == l.Debt() + r.newDebt && left.Coll() + l.Picked(m).coll == l.Coll() + r.newColl
    ensures Balances(from, size, Total(left), left.Size(), Shrink(l, p, r, m).1, amount, m)
  {
    hide PickBase, PickShielded, TotalDebt, TotalColl, Lists.Debt, Lists.Coll, Lists.Size, Lists.Replace, Lists.Picked, AtMostFace;
    PaidAtMost(p.collDrawn + p.fee, p.redeemed, r.collateralLot + r.fee, r.lot, m,
               p.collDrawn + r.collateralLot + (p.fee + r.fee), p.redeemed + r.lot);
  }

  lemma PaidAtMost(paid: nat, redeemed: nat, more: nat, lot: nat, m: Market, paid': nat, redeemed': nat)
    requires AtMostFace(paid, redeemed, m) && AtMostFace(more, lot, m)
    requires paid' == paid + more && redeemed' == redeemed + lot
    ensures AtMostFace(paid', redeemed', m)
  {
    Distribute(paid, more, m.price);
    Distribute(redeemed, lot, m.par);
  }

  lemma ShrinkKeepsRatio(skipped: Lists, l: Lists, m: Market, r: Single)
    requires m.price > 0 && l.Picks(m) && Worth(Whole(skipped, l), m) && Takes(r, l.Picked(m), m)
    ensures RatioKept(Whole(skipped, l), Whole(skipped, l.Replace(m, [Position(r.newDebt, r.newColl)])))
  {
    ReplaceTotals(l, m, Position(r.newDebt, r.newColl));
    hide PickBase, PickShielded, RatioKept, TotalColl, TotalDebt, Worth;
    PartialKeeps(Whole(skipped, l), l.Picked(m), r, m);
  }

  lemma PartialKeeps(total: Position, t: Position, r: Single, m: Market)
    requires m.price > 0 && Worth(total, m) && Takes(r, t, m) && t.debt <= total.debt && t.coll <= total.coll
    ensures RatioKept(total, Position(total.debt - r.lot, total.coll - r.collateralLot))
  {
    PaidOnly(r.collateralLot, r.fee, m.price, r.lot * m.par);
    PartialRaisesRatio(total.coll, total.debt, r.lot, r.collateralLot, m);
    hide NotLowered;
  }

  lemma PaidOnly(paid: nat, fee: nat, price: nat, worth: nat)
    requires (paid + fee) * price <= worth
    ensures paid * price <= worth
  {
    Distribute(paid, fee, price);
  }

  /** A partial redemption is cancelled when the hint is outdated or too little debt would be left. */
  predicate Cancels(r: Single, hintNICR: nat)
    requires r.newDebt > LUSD_GAS_COMPENSATION
  {
    r.newColl * NICR_PRECISION / r.newDebt != hintNICR || r.newDebt - LUSD_GAS_COMPENSATION < MIN_NET_DEBT
  }

  // ----- what is left of the lists, by its effect

  /** What a partial redemption against `t` leaves: no less than the minimum net debt, at the ratio of the hint. */
  ghost predicate Shrunk(t: Position, left: Position, hintNICR: nat) {
    MIN_NET_DEBT + LUSD_GAS_COMPENSATION <= left.debt <= t.debt && left.coll <= t.coll
    && left.coll * NICR_PRECISION / left.debt == hintNICR
  }

  /** `i` base troves and `j` shielded ones are gone from the front; after a partial, one of the next is shrunk. */
  ghost predicate LeftAt(start: Lists, l: Lists, i: nat, j: nat, partials: nat, hintNICR: nat) {
    i <= |start.bases| && j <= |start.shielded|
    && if partials == 0 then
         l == Lists(start.bases[i..], start.shielded[j..])
       else
         || (i < |start.bases| && l.bases != [] && l == Lists([l.bases[0]] + start.bases[i + 1..], start.shielded[j..])
             && Shrunk(start.bases[i], l.bases[0], hintNICR))
         || (j < |start.shielded| && l.shielded != [] && l == Lists(start.bases[i..], [l.shielded[0]] + start.shielded[j + 1..])
             && Shrunk(start.shielded[j], l.shielded[0], hintNICR))
  }

  ghost predicate Left(start: Lists, l: Lists, closed: nat, partials: nat, hintNICR: nat) {
    exists i: nat, j: nat | i + j == closed :: LeftAt(start, l, i, j, partials, hintNICR)
  }

  /** No trove owes less than the minimum net debt and the reserve. */
  ghost predicate AtMinimum(s: seq<Position>) {
    forall i | 0 <= i < |s| :: s[i].debt >= MIN_NET_DEBT + LUSD_GAS_COMPENSATION
  }

  /** A redemption leaves no trove below the minimum debt that was not below it before. */
  lemma LeftAtMinimum(start: Lists, l: Lists, closed: nat, partials: nat, hintNICR: nat)
    requires Left(start, l, closed, partials, hintNICR) && AtMinimum(start.bases) && AtMinimum(start.shielded)
    ensures AtMinimum(l.bases) && AtMinimum(l.shielded)
  {
  }

  lemma CloseLeft(start: Lists, l: Lists, i: nat, j: nat, m: Market, hintNICR: nat)
    requires l.Picks(m) && LeftAt(start, l, i, j, 0, hintNICR)
    ensures var base := l.NextIsBase(m);
            LeftAt(start, l.Replace(m, []), if base then i + 1 else i, if base then j else j + 1, 0, hintNICR)
  {
    hide RatioAtLeast, ICR, Shrunk;
    assert forall s: seq<Position> :: [] + s == s;
  }

  lemma ShrinkLeft(start: Lists, l: Lists, i: nat, j: nat, m: Market, r: Single, hintNICR: nat)
    requires l.Picks(m) && LeftAt(start, l, i, j, 0, hintNICR) && Takes(r, l.Picked(m), m)
    requires r.newDebt > LUSD_GAS_COMPENSATION && !Cancels(r, hintNICR)
    ensures LeftAt(start, l.Replace(m, [Position(r.newDebt, r.newColl)]), i, j, 1, hintNICR)
  {
    ShrunkBy(l.Picked(m), r, m, hintNICR);
    hide RatioAtLeast, ICR, Shrunk, Takes, Cancels;
    if PickBase(l.bases, l.shielded, m) {
      assert l.bases[1..] == start.bases[i + 1..];
    } else {
      assert l.shielded[1..] == start.shielded[j + 1..];
    }
  }

  lemma ShrunkBy(t: Position, r: Single, m: Market, hintNICR: nat)
    requires Takes(r, t, m) && r.newDebt > LUSD_GAS_COMPENSATION && !Cancels(r, hintNICR)
    ensures Shrunk(t, Position(r.newDebt, r.newColl), hintNICR)
  {
    hide AtMostFace;
  }

  /** Nothing can be redeemed from: no base trove is next at the minimum ratio, no shielded one between it and the shield. */
  predicate NoneNext(l: Lists, m: Market) {
    (l.bases == [] || !RatioAtLeast(l.bases[0], MCR, m))
    && (l.shielded == [] || !RatioAtLeast(l.shielded[0], MCR, m) || RatioAtLeast(l.shielded[0], HCR, m))
  }

  lemma NonePicked(l: Lists, m: Market)
    ensures !l.Picks(m) <==> NoneNext(l, m)
  {
    hide RatioAtLeast, ICR;
  }

  /** The next trove would have been left with too little debt, or not at the ratio of the hint. */
  ghost predicate WouldMiss(l: Lists, p: Progress, m: Market, rate: nat, hintNICR: nat)
    requires m.price > 0 && rate <= DECIMAL_PRECISION
  {
    p.partials == 0 && l.Picks(m) && Redeemable(l.Picked(m), m)
    && var r := RedeemFrom(l.Picked(m), p.remaining, m, rate);
       r.newDebt > LUSD_GAS_COMPENSATION
       && (r.newDebt < MIN_NET_DEBT + LUSD_GAS_COMPENSATION || r.newColl * NICR_PRECISION / r.newDebt != hintNICR)
  }

  lemma CancelMisses(l: Lists, p: Progress, m: Market, rate: nat, hintNICR: nat)
    requires m.price > 0 && rate <= DECIMAL_PRECISION && p.partials == 0 && l.Picks(m) && Redeemable(l.Picked(m), m)
    requires var r := RedeemFrom(l.Picked(m), p.remaining, m, rate); r.newDebt > LUSD_GAS_COMPENSATION && Cancels(r, hintNICR)
    ensures WouldMiss(l, p, m, rate, hintNICR)
  {
    hide RedeemFrom, Redeemable, PickBase, PickShielded;
  }

  /** A sequence that reverts has drawn nothing, or is about to close the last trove of the system. */
  ghost predicate Blocked(start: Lists, skipped: Lists, l: Lists, p: Progress, amount: nat, m: Market, hintNICR: nat) {
    Booked(start, l, p, amount, m) && Left(start, l, p.closed, p.partials, hintNICR)
    && (p.collDrawn == 0
        || (l.Size() + skipped.Size() <= 1 && l.Picks(m) && l.Picked(m).debt <= p.remaining + LUSD_GAS_COMPENSATION))
  }

  ghost predicate Blocks(start: Lists, skipped: Lists, amount: nat, m: Market, hintNICR: nat) {
    exists l, p :: Blocked(start, skipped, l, p, amount, m, hintNICR)
  }

  datatype Stop = Reverted | Finished(lists: Lists, progress: Progress, cancelled: bool)

  function Finish(l: Lists, p: Progress, cancelled: bool): Stop {
    if p.collDrawn == 0 then Reverted else Finished(l, p, cancelled)
  }

  /** The sequence as a function, trove by trove; `others` troves are passed over, but count for the last one of the system. */
  ghost function Sequence(l: Lists, p: Progress, others: nat, m: Market, rate: nat, hintNICR: nat, iterations: nat): Stop
    requires m.price > 0 && rate <= DECIMAL_PRECISION && (p.remaining > 0 ==> l.WithReserves())
    decreases p.remaining
  {
    if p.remaining == 0 || iterations == 0 || !l.Picks(m) then
      Finish(l, p, false)
    else
      var r := RedeemFrom(l.Picked(m), p.remaining, m, rate);
      if r.newDebt <= LUSD_GAS_COMPENSATION then
        if l.Size() + others <= 1 then Reverted
        else
          ReplaceKeeps(l, m);
          Sequence(Close(l, p, r, m).0, Close(l, p, r, m).1, others, m, rate, hintNICR, iterations - 1)
      else if Cancels(r, hintNICR) then Finish(l, p, true)
      else Sequence(Shrink(l, p, r, m).0, Shrink(l, p, r, m).1, others, m, rate, hintNICR, iterations - 1)
  }

  /** One turn of the sequence. */
  lemma SequenceStep(l: Lists, p: Progress, others: nat, m: Market, rate: nat, hintNICR: nat, iterations: nat)
    requires m.price > 0 && rate <= DECIMAL_PRECISION && p.remaining > 0 && iterations > 0 && l.WithReserves() && l.Picks(m)
    ensures Redeemable(l.Picked(m), m) && l.Replace(m, []).WithReserves()
    ensures var r, before := RedeemFrom(l.Picked(m), p.remaining, m, rate), Sequence(l, p, others, m, rate, hintNICR, iterations);
            var closed, shrunk := Close(l, p, r, m), Shrink(l, p, r, m);
            if r.newDebt <= LUSD_GAS_COMPENSATION then
              before == if l.Size() + others <= 1 then Reverted
                        else Sequence(closed.0, closed.1, others, m, rate, hintNICR, iterations - 1)
            else if Cancels(r, hintNICR) then before == Finish(l, p, true)
            else before == Sequence(shrunk.0, shrunk.1, others, m, rate, hintNICR, iterations - 1)
  {
    ReplaceKeeps(l, m);
    hide RatioAtLeast, ICR, Cancels, RedeemFrom;
  }

  lemma SequenceEnds(l: Lists, p: Progress, others: nat, m: Market, rate: nat, hintNICR: nat, iterations: nat)
    requires m.price > 0 && rate <= DECIMAL_PRECISION && (p.remaining > 0 ==> l.WithReserves())
    requires p.remaining == 0 || iterations == 0 || !l.Picks(m)
    ensures Sequence(l, p, others, m, rate, hintNICR, iterations) == Finish(l, p, false)
  {
  }

  /** The total ratio has not fallen so far, and what can still be closed may be. */
  ghost predicate Going(skipped: Lists, start: Lists, l: Lists, remaining: nat, m: Market) {
    Worth(Whole(skipped, start), m) && RatioKept(Whole(skipped, start), Whole(skipped, l))
    && (remaining > 0 ==> Safe(l, Whole(skipped, start), skipped.Size() > 0, remaining, m))
  }

  lemma NothingBooked(skipped: Lists, l: Lists, amount: nat, m: Market)
    ensures Booked(l, l, Begin(amount), amount, m) && RatioKept(Whole(skipped, l), Whole(skipped, l))
  {
  }

  lemma DebtLeft(l: Lists, m: Market)
    requires l.WithReserves() && l.Picks(m)
    ensures l.Debt() > 0
  {
  }

  lemma CloseGoing(skipped: Lists, start: Lists, l: Lists, p: Progress, amount: nat, m: Market, r: Single)
    requires m.price > 0 && m.par > 0 && p.remaining > 0 && l.WithReserves() && l.Picks(m)
    requires Booked(start, l, p, amount, m) && Going(skipped, start, l, p.remaining, m)
    requires Takes(r, l.Picked(m), m) && r.newDebt == LUSD_GAS_COMPENSATION && r.lot <= p.remaining
    ensures Going(skipped, start, Close(l, p, r, m).0, p.remaining - r.lot, m)
  {
    var total, left := Whole(skipped, start), l.Replace(m, []);
    DebtLeft(l, m);
    hide Safe, NotLowered, Worth, PickBase, PickShielded, HasReserves, TotalDebt, TotalColl;
    CloseKeepsRatio(skipped, l, total, p.remaining, m);
    CloseKeepsSafe(l, total, skipped.Size() > 0, p.remaining, r.lot, m);
    NotLoweredTrans(total.coll, total.debt, Whole(skipped, l).coll, Whole(skipped, l).debt, Whole(skipped, left).coll, Whole(skipped, left).debt);
  }

  lemma ShrinkGoing(skipped: Lists, start: Lists, l: Lists, p: Progress, amount: nat, m: Market, r: Single)
    requires m.price > 0 && l.WithReserves() && l.Picks(m)
    requires Booked(start, l, p, amount, m) && Going(skipped, start, l, p.remaining, m)
    requires Takes(r, l.Picked(m), m) && r.lot == p.remaining
    ensures Going(skipped, start, Shrink(l, p, r, m).0, 0, m)
  {
    var total, left := Whole(skipped, start), l.Replace(m, [Position(r.newDebt, r.newColl)]);
    DebtLeft(l, m);
    hide Safe, NotLowered, Worth, PickBase, PickShielded, HasReserves, TotalDebt, TotalColl, Takes;
    WorthKept(total, Whole(skipped, l), m);
    ShrinkKeepsRatio(skipped, l, m, r);
    NotLoweredTrans(total.coll, total.debt, Whole(skipped, l).coll, Whole(skipped, l).debt, Whole(skipped, left).coll, Whole(skipped, left).debt);
  }

  /**
   The loop of a redemption: lowest ratio first, full redemptions close the trove and burn its reserve, at most one
   partial redemption comes last, and a partial with an outdated hint or too little debt left is cancelled.
   Reverts when the only trove of the system would be closed or nothing is drawn.
   */
  method RunRedemptionLoop(start: Lists, skipped: Lists, amount: nat, m: Market, rate: nat, hintNICR: nat, maxIterations: nat)
    returns (ok: bool, l: Lists, p: Progress, cancelled: bool)
    requires m.price > 0 && m.par > 0 && rate <= DECIMAL_PRECISION && start.WithReserves()
    ensures (if ok then Finished(l, p, cancelled) else Reverted)
            == Sequence(start, Begin(amount), skipped.Size(), m, rate, hintNICR, Limit(maxIterations))
    ensures ok ==> Booked(start, l, p, amount, m) && p.collDrawn > 0
    ensures ok && Worth(Whole(skipped, start), m) && Safe(start, Whole(skipped, start), skipped.Size() > 0, amount, m) ==>
              RatioKept(Whole(skipped, start), Whole(skipped, l))
    ensures ok ==> Left(start, l, p.closed, p.partials, hintNICR) && l.Size() + skipped.Size() > 0
    ensures ok ==> if cancelled then WouldMiss(l, p, m, rate, hintNICR)
                   else p.remaining == 0 || p.closed == (if maxIterations == 0 then UINT_MAX else maxIterations) || NoneNext(l, m)
    ensures ok && maxIterations > 0 ==> p.closed + p.partials <= maxIterations
    ensures !ok ==> Blocks(start, skipped, amount, m, hintNICR)
  {
    hide *;
    ghost var i: nat, j: nat := 0, 0;
    StartLeft(start, hintNICR);
    l, cancelled := start, false;
    p := Begin(amount);
    var iterations: nat := Limit(maxIterations);
    ghost var kept := Worth(Whole(skipped, start), m) && Safe(start, Whole(skipped, start), skipped.Size() > 0, amount, m);
    NothingBooked(skipped, start, amount, m);
    GoingFrom(skipped, start, amount, m);
    Fields(start, p, amount);
    LimitIs(maxIterations);
    while p.remaining > 0 && iterations > 0 && l.Picks(m)
      invariant Booked(start, l, p, amount, m)
      invariant p.remaining > 0 ==> l.WithReserves() && p.partials == 0 && iterations + p.closed == Limit(maxIterations)
      invariant kept ==> Going(skipped, start, l, p.remaining, m)
      invariant iterations + p.closed + p.partials == Limit(maxIterations)
      invariant i + j == p.closed && LeftAt(start, l, i, j, p.partials, hintNICR)
      invariant p.collDrawn > 0 ==> l.Size() + skipped.Size() > 0
      invariant Sequence(l, p, skipped.Size(), m, rate, hintNICR, iterations)
                == Sequence(start, Begin(amount), skipped.Size(), m, rate, hintNICR, Limit(maxIterations))
      decreases iterations
    {
      SequenceStep(l, p, skipped.Size(), m, rate, hintNICR, iterations);
      var r := RedeemFrom(l.Picked(m), p.remaining, m, rate);
      StepFields(l, p, r, m);
      if r.newDebt <= LUSD_GAS_COMPENSATION {
        CloseBooked(start, l, p, amount, m, r);
        if l.Size() + skipped.Size() <= 1 {
          LastOne(start, skipped, l, p, amount, m, r, i, j, hintNICR);
          return false, start, p, false;
        }
        CloseLeft(start, l, i, j, m, hintNICR);
        SizeLeft(l, m, []);
        if l.NextIsBase(m) { i := i + 1; } else { j := j + 1; }
        if kept { CloseGoing(skipped, start, l, p, amount, m, r); }
        l, p := Close(l, p, r, m).0, Close(l, p, r, m).1;
      } else {
        if Cancels(r, hintNICR) {
          CancelMisses(l, p, m, rate, hintNICR);
          cancelled := true;
          break;
        }
        ShrinkLeft(start, l, i, j, m, r, hintNICR);
        SizeLeft(l, m, [Position(r.newDebt, r.newColl)]);
        ShrinkBooked(start, l, p, amount, m, r);
        if kept { ShrinkGoing(skipped, start, l, p, amount, m, r); }
        l, p := Shrink(l, p, r, m).0, Shrink(l, p, r, m).1;
      }
      iterations := iterations - 1;
    }
    if !cancelled { SequenceEnds(l, p, skipped.Size(), m, rate, hintNICR, iterations); }
    FinishIs(l, p, cancelled);
    if kept { GoingMeans(skipped, start, l, p.remaining, m); }
    NonePicked(l, m);
    LeftMeans(start, l, i, j, p.partials, hintNICR);
    if p.collDrawn == 0 {
      NothingDrawn(start, skipped, l, p, amount, m, hintNICR);
      return false, start, p, false;
    }
    return true, l, p, cancelled;
  }

  lemma StartLeft(start: Lists, hintNICR: nat)
    ensures LeftAt(start, start, 0, 0, 0, hintNICR)
  {
  }

  lemma LeftMeans(start: Lists, l: Lists, i: nat, j: nat, partials: nat, hintNICR: nat)
    requires LeftAt(start, l, i, j, partials, hintNICR)
    ensures Left(start, l, i + j, partials, hintNICR)
  {
  }

  lemma SizeLeft(l: Lists, m: Market, instead: seq<Position>)
    requires l.Picks(m)
    ensures l.Size() >= 1 && l.Replace(m, instead).Size() == l.Size() - 1 + |instead|
  {
    hide RatioAtLeast, ICR;
  }

  lemma LastOne(start: Lists, skipped: Lists, l: Lists, p: Progress, amount: nat, m: Market, r: Single, i: nat, j: nat, hintNICR: nat)
    requires Booked(start, l, p, amount, m) && i + j == p.closed && LeftAt(start, l, i, j, p.partials, hintNICR)
    requires l.Picks(m) && l.Size() + skipped.Size() <= 1 && Takes(r, l.Picked(m), m)
    requires r.newDebt <= LUSD_GAS_COMPENSATION && r.lot <= p.remaining
    ensures Blocks(start, skipped, amount, m, hintNICR)
  {
    hide Booked, LeftAt, PickBase, PickShielded, AtMostFace;
    assert Blocked(start, skipped, l, p, amount, m, hintNICR);
  }

  lemma NothingDrawn(start: Lists, skipped: Lists, l: Lists, p: Progress, amount: nat, m: Market, hintNICR: nat)
    requires Booked(start, l, p, amount, m) && Left(start, l, p.closed, p.partials, hintNICR) && p.collDrawn == 0
    ensures Blocks(start, skipped, amount, m, hintNICR)
  {
    hide Booked, Left;
    assert Blocked(start, skipped, l, p, amount, m, hintNICR);
  }

  lemma GoingFrom(skipped: Lists, start: Lists, amount: nat, m: Market)
    ensures Worth(Whole(skipped, start), m) && Safe(start, Whole(skipped, start), skipped.Size() > 0, amount, m) ==>
              Going(skipped, start, start, amount, m)
  {
  }

  lemma GoingMeans(skipped: Lists, start: Lists, l: Lists, remaining: nat, m: Market)
    requires Going(skipped, start, l, remaining, m)
    ensures RatioKept(Whole(skipped, start), Whole(skipped, l))
  {
  }

  lemma LimitIs(maxIterations: nat)
    ensures Limit(maxIterations) == if maxIterations == 0 then UINT_MAX else maxIterations
  {
  }

  lemma Fields(start: Lists, p: Progress, amount: nat)
    requires p == Begin(amount)
    ensures p.remaining == amount && p.closed == p.partials == p.collDrawn == 0
  {
  }

  lemma StepFields(l: Lists, p: Progress, r: Single, m: Market)
    requires l.Picks(m) && r.lot <= p.remaining
    ensures var c, s := Close(l, p, r, m), Shrink(l, p, r, m);
            c.0 == l.Replace(m, []) && c.1.remaining == s.1.remaining == p.remaining - r.lot
            && s.0 == l.Replace(m, [Position(r.newDebt, r.newColl)])
            && c.1.closed == p.closed + 1 && c.1.partials == p.partials && s.1.closed == p.closed && s.1.partials == p.partials + 1
  {
  }

  lemma FinishIs(l: Lists, p: Progress, cancelled: bool)
    ensures Finish(l, p, cancelled) == if p.collDrawn == 0 then Reverted else Finished(l, p, cancelled)
  {
  }

  /** How many troves at the end of a list are below the minimum ratio. */
  method SkipBelowMCR(s: seq<Position>, m: Market) returns (k: nat)
    ensures k <= |s| && AllBelowMCR(s[..k], m) && (k < |s| ==> RatioAtLeast(s[k], MCR, m))
  {
    hide RatioAtLeast;
    k := 0;
    while k < |s| && !RatioAtLeast(s[k], MCR, m)
      invariant k <= |s| && forall i | 0 <= i < k :: !RatioAtLeast(s[i], MCR, m)
    {
      k := k + 1;
    }
  }

  lemma {:induction false} TotalsAppend(a: seq<Position>, b: seq<Position>)
    ensures TotalDebt(a + b) == TotalDebt(a) + TotalDebt(b) && TotalColl(a + b) == TotalColl(a) + TotalColl(b)
  {
    if a == [] {
      assert a + b == b;
    } else {
      TotalsAppend(a[1..], b);
      assert (a + b)[1..] == a[1..] + b;
    }
  }

  /** Two lists with troves in front that a redemption does not touch. */
  function Behind(bases: seq<Position>, shielded: seq<Position>, l: Lists): Lists {
    Lists(bases + l.bases, shielded + l.shielded)
  }

  lemma BehindBooked(bases: seq<Position>, shielded: seq<Position>, start: Lists, l: Lists, p: Progress, amount: nat, m: Market)
    requires Booked(start, l, p, amount, m)
    ensures Booked(Behind(bases, shielded, start), Behind(bases, shielded, l), p, amount, m)
  {
    TotalsAppend(bases, start.bases);
    TotalsAppend(shielded, start.shielded);
    TotalsAppend(bases, l.bases);
    TotalsAppend(shielded, l.shielded);
    hide TotalDebt, TotalColl;
  }

  /** Both lists start with a trove at the minimum ratio or above. */
  predicate StartsAtMCR(l: Lists, m: Market) {
    (l.bases != [] ==> RatioAtLeast(l.bases[0], MCR, m)) && (l.shielded != [] ==> RatioAtLeast(l.shielded[0], MCR, m))
  }

  predicate AllBelowMCR(s: seq<Position>, m: Market) {
    forall i | 0 <= i < |s| :: !RatioAtLeast(s[i], MCR, m)
  }

  // ----- a whole redemption

  const REDEMPTION_FEE_FLOOR: nat := DECIMAL_PRECISION / 1000 * 5

  /** What a redeemer asks for, and what the token and the fee clock say at that time. */
  datatype Request = Request(
    amount: nat, maxFeePercentage: nat, hintNICR: nat, maxIterations: nat,
    afterBootstrap: bool, balance: nat, supply: nat, baseRate: nat, minutes: nat)

  /** The checks before the loop. */
  predicate Accepts(q: Request, total: Position, m: Market) {
    REDEMPTION_FEE_FLOOR <= q.maxFeePercentage <= DECIMAL_PRECISION && q.afterBootstrap
    && RatioAtLeast(total, MCR, m) && 0 < q.amount <= q.balance <= q.supply
  }

  /** The fee rate of the whole sequence follows from the amount asked for and the stored base rate. */
  function RateFor(q: Request): (rate: nat)
    requires q.supply > 0
    ensures REDEMPTION_FEE_FLOOR <= rate <= DECIMAL_PRECISION
  {
    Min(REDEMPTION_FEE_FLOOR + FeeDecay.RaisedRate(q.baseRate, q.amount, q.supply), DECIMAL_PRECISION)
  }

  /** The checks after the loop: the new base rate is not zero, and the redeemer accepts the fee. */
  predicate Settles(q: Request, p: Progress)
    requires q.supply > 0 && p.collDrawn > 0
  {
    FeeDecay.RaisedRate(FeeDecay.DecayedRate(q.baseRate, q.minutes), p.redeemed, q.supply) > 0
    && p.fee * DECIMAL_PRECISION / (p.collDrawn + p.fee) <= q.maxFeePercentage
  }

  /** How the sequence over the troves at the minimum ratio or above stops. */
  ghost function Outcome(q: Request, skipped: Lists, rest: Lists, m: Market): Stop
    requires m.price > 0 && q.supply > 0 && rest.WithReserves()
  {
    Sequence(rest, Begin(q.amount), skipped.Size(), m, RateFor(q), q.hintNICR, Limit(q.maxIterations))
  }

  /** A redemption succeeds when it is accepted, its sequence does not revert, and it settles. */
  ghost predicate Succeeds(q: Request, skipped: Lists, rest: Lists, m: Market)
    requires m.price > 0 && rest.WithReserves()
  {
    Accepts(q, Whole(skipped, rest), m)
    && (var stop := Outcome(q, skipped, rest, m);
        stop.Finished? && stop.progress.collDrawn > 0 && Settles(q, stop.progress))
  }

  /** The lists as they were, split into what is passed over and the rest. */
  ghost predicate Splits(start: Lists, skipped: Lists, rest: Lists, m: Market) {
    start == Behind(skipped.bases, skipped.shielded, rest) && rest.WithReserves()
    && AllBelowMCR(skipped.bases, m) && AllBelowMCR(skipped.shielded, m) && StartsAtMCR(rest, m)
  }

  method SkipAllBelowMCR(start: Lists, m: Market) returns (skipped: Lists, rest: Lists)
    requires start.WithReserves()
    ensures Splits(start, skipped, rest, m)
  {
    hide RatioAtLeast, HasReserves;
    var b := SkipBelowMCR(start.bases, m);
    var s := SkipBelowMCR(start.shielded, m);
    skipped, rest := Lists(start.bases[..b], start.shielded[..s]), Lists(start.bases[b..], start.shielded[s..]);
    SplitLists(start, b, s);
  }

  /**
   A redemption: the troves below the minimum ratio at the end of each list are passed over and stay as they
   are, and the loop runs over the others. The total ratio does not fall if every trove that the amount can
   close is not above it; with no trove passed over and both lists in order, it is enough that no base trove
   that the amount can close is above a shielded trove it may be taken before.
   */
  method RedeemCollateral(start: Lists, q: Request, m: Market)
    returns (ok: bool, l: Lists, p: Progress, cancelled: bool, skipped: Lists, rest: Lists)
    requires m.price > 0 && m.par > 0 && start.WithReserves()
    ensures Splits(start, skipped, rest, m)
    ensures ok <==> Succeeds(q, skipped, rest, m)
    ensures ok ==> var stop := Outcome(q, skipped, rest, m);
                   l == Behind(skipped.bases, skipped.shielded, stop.lists) && p == stop.progress && cancelled == stop.cancelled
    ensures ok ==> Booked(start, l, p, q.amount, m)
    ensures ok ==> Outcome(q, skipped, rest, m).Finished?
                   && Left(rest, Outcome(q, skipped, rest, m).lists, p.closed, p.partials, q.hintNICR)
    ensures ok && AtMinimum(start.bases) && AtMinimum(start.shielded) ==> AtMinimum(l.bases) && AtMinimum(l.shielded)
    ensures ok && cancelled ==> WouldMiss(Outcome(q, skipped, rest, m).lists, p, m, RateFor(q), q.hintNICR)
    ensures ok ==> q.afterBootstrap && REDEMPTION_FEE_FLOOR <= q.maxFeePercentage <= DECIMAL_PRECISION
                   && 0 < q.amount <= q.balance <= q.supply && RatioAtLeast(Total(start), MCR, m)
                   && FeeWithin(p, q.maxFeePercentage)
    ensures !ok ==>
              || !(q.afterBootstrap && REDEMPTION_FEE_FLOOR <= q.maxFeePercentage <= DECIMAL_PRECISION
                   && 0 < q.amount <= q.balance <= q.supply && RatioAtLeast(Total(start), MCR, m))
              || Blocks(rest, skipped, q.amount, m, q.hintNICR) || Refuses(rest, q, m)
    ensures ok ==> l.Size() > 0 && (q.maxIterations > 0 ==> p.closed + p.partials <= q.maxIterations)
    ensures ok ==> FeeDecay.DecayedRate(q.baseRate, q.minutes) > 0 || p.redeemed * DECIMAL_PRECISION >= FeeDecay.BETA * q.supply
    ensures ok && Safe(rest, Total(start), skipped.Size() > 0, q.amount, m) ==> RatioKept(Total(start), Total(l))
    ensures !ok ==> l == start
  {
    skipped, rest := SkipAllBelowMCR(start, m);
    l, p, cancelled := start, Begin(q.amount), false;
    SplitMeans(start, skipped, rest, m);
    hide *;
    SucceedsMeans(q, skipped, rest, m);
    AcceptsMeans(q, Whole(skipped, rest), m);
    if !Accepts(q, Whole(skipped, rest), m) {
      return false, l, p, cancelled, skipped, rest;
    }
    TotalWorth(Whole(skipped, rest), m);
    OutcomeIs(q, skipped, rest, m);
    var left;
    ok, left, p, cancelled :=
      RunRedemptionLoop(rest, skipped, q.amount, m, RateFor(q), q.hintNICR, q.maxIterations);
    if !ok {
      return false, start, p, cancelled, skipped, rest;
    }
    SettleMeans(q, p);
    if !Settles(q, p) {
      NotSettled(rest, left, p, q, m);
      return false, start, p, cancelled, skipped, rest;
    }
    l := Behind(skipped.bases, skipped.shielded, left);
    BehindTotals(skipped, left);
    BehindSize(skipped, left);
    BehindAtMinimum(start, skipped, rest, left, p.closed, p.partials, q.hintNICR);
    BehindBooked(skipped.bases, skipped.shielded, rest, left, p, q.amount, m);
    return true, l, p, cancelled, skipped, rest;
  }

  lemma AcceptsMeans(q: Request, total: Position, m: Market)
    ensures Accepts(q, total, m) <==>
            q.afterBootstrap && REDEMPTION_FEE_FLOOR <= q.maxFeePercentage <= DECIMAL_PRECISION
            && 0 < q.amount <= q.balance <= q.supply && RatioAtLeast(total, MCR, m)
  {
    hide RatioAtLeast;
  }

  lemma OutcomeIs(q: Request, skipped: Lists, rest: Lists, m: Market)
    requires m.price > 0 && q.supply > 0 && rest.WithReserves()
    ensures Outcome(q, skipped, rest, m)
            == Sequence(rest, Begin(q.amount), skipped.Size(), m, RateFor(q), q.hintNICR, Limit(q.maxIterations))
  {
    hide Sequence, RateFor, Limit;
  }

  lemma SucceedsMeans(q: Request, skipped: Lists, rest: Lists, m: Market)
    requires m.price > 0 && rest.WithReserves()
    ensures Succeeds(q, skipped, rest, m) <==>
              Accepts(q, Whole(skipped, rest), m) && q.supply > 0
              && (var stop := Outcome(q, skipped, rest, m);
                  stop.Finished? && stop.progress.collDrawn > 0 && Settles(q, stop.progress))
  {
    hide Outcome, Settles, RatioAtLeast, Whole;
  }

  lemma BehindTotals(skipped: Lists, l: Lists)
    ensures Total(Behind(skipped.bases, skipped.shielded, l)) == Whole(skipped, l)
  {
    TotalsAppend(skipped.bases, l.bases);
    TotalsAppend(skipped.shielded, l.shielded);
    hide TotalDebt, TotalColl;
  }

  /** The fee is at most this fraction of all the collateral taken. */
  predicate FeeWithin(p: Progress, most: nat) {
    p.collDrawn > 0 && p.fee * DECIMAL_PRECISION / (p.collDrawn + p.fee) <= most
  }

  lemma SettleMeans(q: Request, p: Progress)
    requires q.supply > 0 && p.collDrawn > 0
    ensures Settles(q, p) <==>
              FeeWithin(p, q.maxFeePercentage)
              && (FeeDecay.DecayedRate(q.baseRate, q.minutes) > 0 || p.redeemed * DECIMAL_PRECISION >= FeeDecay.BETA * q.supply)
  {
    hide FeeDecay.DecayedRate;
    FeeDecay.RateRaised(FeeDecay.DecayedRate(q.baseRate, q.minutes), p.redeemed, q.supply);
    hide FeeDecay.RaisedRate;
  }

  /** A sequence that draws collateral, but for a higher fee than accepted, or too little to raise a rate of zero. */
  ghost predicate RefusedAt(rest: Lists, l: Lists, p: Progress, q: Request, m: Market) {
    Booked(rest, l, p, q.amount, m) && Left(rest, l, p.closed, p.partials, q.hintNICR) && p.collDrawn > 0
    && (!FeeWithin(p, q.maxFeePercentage)
        || (FeeDecay.DecayedRate(q.baseRate, q.minutes) == 0 && p.redeemed * DECIMAL_PRECISION < FeeDecay.BETA * q.supply))
  }

  ghost predicate Refuses(rest: Lists, q: Request, m: Market) {
    exists l, p :: RefusedAt(rest, l, p, q, m)
  }

  lemma NotSettled(rest: Lists, l: Lists, p: Progress, q: Request, m: Market)
    requires Booked(rest, l, p, q.amount, m) && Left(rest, l, p.closed, p.partials, q.hintNICR) && p.collDrawn > 0
    requires !(FeeWithin(p, q.maxFeePercentage)
               && (FeeDecay.DecayedRate(q.baseRate, q.minutes) > 0 || p.redeemed * DECIMAL_PRECISION >= FeeDecay.BETA * q.supply))
    ensures Refuses(rest, q, m)
  {
    hide Booked, Left, FeeWithin, FeeDecay.DecayedRate;
    assert RefusedAt(rest, l, p, q, m);
  }

  lemma BehindSize(skipped: Lists, l: Lists)
    ensures Behind(skipped.bases, skipped.shielded, l).Size() == skipped.Size() + l.Size()
  {
  }

  lemma BehindAtMinimum(start: Lists, skipped: Lists, rest: Lists, left: Lists, closed: nat, partials: nat, hintNICR: nat)
    requires start == Behind(skipped.bases, skipped.shielded, rest) && Left(rest, left, closed, partials, hintNICR)
    ensures AtMinimum(start.bases) && AtMinimum(start.shielded) ==>
              var l := Behind(skipped.bases, skipped.shielded, left); AtMinimum(l.bases) && AtMinimum(l.shielded)
  {
    if AtMinimum(start.bases) && AtMinimum(start.shielded) {
      BothAtMinimum(skipped.bases, rest.bases);
      BothAtMinimum(skipped.shielded, rest.shielded);
      LeftAtMinimum(rest, left, closed, partials, hintNICR);
    }
  }

  lemma BothAtMinimum(a: seq<Position>, b: seq<Position>)
    requires AtMinimum(a + b)
    ensures AtMinimum(a) && AtMinimum(b)
  {
    assert forall i | 0 <= i < |a| :: (a + b)[i] == a[i];
    assert forall i | 0 <= i < |b| :: (a + b)[|a| + i] == b[i];
  }

  lemma SplitMeans(start: Lists, skipped: Lists, rest: Lists, m: Market)
    requires Splits(start, skipped, rest, m)
    ensures rest.WithReserves() && start == Behind(skipped.bases, skipped.shielded, rest) && Total(start) == Whole(skipped, rest)
  {
    BehindTotals(skipped, rest);
    hide Total, Whole;
  }

  /** A system at the minimum ratio or above is worth its debt. */
  lemma TotalWorth(t: Position, m: Market)
    requires RatioAtLeast(t, MCR, m)
    ensures Worth(t, m)
  {
    WorthMore(t, m);
  }

  lemma SplitLists(l: Lists, b: nat, s: nat)
    requires b <= |l.bases| && s <= |l.shielded|
    ensures l == Behind(l.bases[..b], l.shielded[..s], Lists(l.bases[b..], l.shielded[s..]))
    ensures l.WithReserves() ==> Lists(l.bases[b..], l.shielded[s..]).WithReserves()
  {
    assert l.bases == l.bases[..b] + l.bases[b..] && l.shielded == l.shielded[..s] + l.shielded[s..];
  }

  // ----- two redemptions that lower the total ratio

  const MARKET := Market(2000 * DECIMAL_PRECISION, DECIMAL_PRECISION)

  const RICH := Position(2000 * DECIMAL_PRECISION, 4 * DECIMAL_PRECISION)
  const SHIELD := Position(2000 * DECIMAL_PRECISION, 2 * DECIMAL_PRECISION)
  const POOR := Position(2000 * DECIMAL_PRECISION, 1050000000000000000)

  /** The net debt of one trove, out of a supply of 4000 LUSD. */
  const NET_DEBT_OF_ONE :=
    Request(1800 * DECIMAL_PRECISION, DECIMAL_PRECISION, 0, 0, true, 1800 * DECIMAL_PRECISION, 4000 * DECIMAL_PRECISION, 0, 0)

  /** The redemption of the net debt of the picked trove closes it and ends. */
  lemma ClosesOne(q: Request, skipped: Lists, l: Lists, m: Market)
    requires m.price > 0 && 0 < q.amount <= q.supply && l.WithReserves() && l.Picks(m) && l.Size() + skipped.Size() > 1
    requires Redeemable(l.Picked(m), m) && l.Picked(m).debt == q.amount + LUSD_GAS_COMPENSATION
    ensures var r := RedeemFrom(l.Picked(m), q.amount, m, RateFor(q));
            Outcome(q, skipped, l, m) == Finish(Close(l, Begin(q.amount), r, m).0, Close(l, Begin(q.amount), r, m).1, false)
  {
    hide RateFor, Redeemable, HasReserves, PickBase, PickShielded, Sequence;
    var r := RedeemFrom(l.Picked(m), q.amount, m, RateFor(q));
    SequenceStep(l, Begin(q.amount), skipped.Size(), m, RateFor(q), q.hintNICR, Limit(q.maxIterations));
    var closed := Close(l, Begin(q.amount), r, m);
    SequenceEnds(closed.0, closed.1, skipped.Size(), m, RateFor(q), q.hintNICR, Limit(q.maxIterations) - 1);
  }

  lemma RichPays()
    ensures RateFor(NET_DEBT_OF_ONE) == 230000000000000000
    ensures Redeemable(RICH, MARKET)
    ensures var r := RedeemFrom(RICH, NET_DEBT_OF_ONE.amount, MARKET, 230000000000000000);
            r.lot == NET_DEBT_OF_ONE.amount && r.collateralLot == 693000000000000000 && r.fee == 207000000000000000
            && r.newDebt == LUSD_GAS_COMPENSATION && r.newColl == RICH.coll - r.collateralLot
  {
  }

  lemma RichSettles(p: Progress)
    requires p.collDrawn == 693000000000000000 && p.fee == 207000000000000000 && p.redeemed == NET_DEBT_OF_ONE.amount
    ensures Settles(NET_DEBT_OF_ONE, p)
  {
    hide FeeDecay.DecPowOf;
    assert FeeDecay.DecayedRate(0, 0) == 0;
  }

  /** A base trove of 400% is closed with its net debt. */
  lemma RichCloses(skipped: Lists, l: Lists)
    requires l.WithReserves() && PickBase(l.bases, l.shielded, MARKET) && l.bases[0] == RICH && l.Size() + skipped.Size() > 1
    ensures var stop := Outcome(NET_DEBT_OF_ONE, skipped, l, MARKET);
            stop.Finished? && stop.progress.collDrawn > 0 && stop.lists == Lists(l.bases[1..], l.shielded)
            && Settles(NET_DEBT_OF_ONE, stop.progress)
  {
    assert [] + l.bases[1..] == l.bases[1..];
    hide PickBase, PickShielded, HasReserves, RedeemFrom, Settles, RateFor;
    RichPays();
    ClosesOne(NET_DEBT_OF_ONE, skipped, l, MARKET);
    hide Outcome, Sequence;
    var r := RedeemFrom(RICH, NET_DEBT_OF_ONE.amount, MARKET, 230000000000000000);
    RichSettles(Close(l, Begin(NET_DEBT_OF_ONE.amount), r, MARKET).1);
  }

  lemma SplitIs(start: Lists, skipped: Lists, rest: Lists, m: Market, b: nat)
    requires Splits(start, skipped, rest, m) && b <= |start.bases| && AllAtMCR(start.shielded, m)
    requires AllBelowMCR(start.bases[..b], m) && AllAtMCR(start.bases[b..], m)
    ensures skipped == Lists(start.bases[..b], []) && rest == Lists(start.bases[b..], start.shielded)
  {
    hide RatioAtLeast, HasReserves;
    SplitAt(start.bases, skipped.bases, rest.bases, m, b);
    SplitAt(start.shielded, skipped.shielded, rest.shielded, m, 0);
  }

  lemma SplitAt(s: seq<Position>, skipped: seq<Position>, rest: seq<Position>, m: Market, b: nat)
    requires s == skipped + rest && b <= |s| && AllBelowMCR(s[..b], m) && AllAtMCR(s[b..], m)
    requires AllBelowMCR(skipped, m) && (rest != [] ==> RatioAtLeast(rest[0], MCR, m))
    ensures skipped == s[..b] && rest == s[b..]
  {
    hide RatioAtLeast;
    WhereSplit(s, skipped, rest, b);
  }

  lemma WhereSplit(s: seq<Position>, skipped: seq<Position>, rest: seq<Position>, b: nat)
    requires s == skipped + rest && b <= |s|
    ensures |skipped| < b ==> rest != [] && rest[0] == s[..b][|skipped|]
    ensures b < |skipped| ==> skipped[b] == s[b..][0]
    ensures |skipped| == b ==> skipped == s[..b] && rest == s[b..]
  {
  }

  const WITH_SHIELD := Lists([RICH], [SHIELD])
  const WITH_POOR := Lists([POOR, RICH], [])

  lemma RunsSetUp()
    ensures WITH_SHIELD.Ordered(MARKET) && WITH_SHIELD.WithReserves() && WITH_POOR.WithReserves()
    ensures PickBase([RICH], [SHIELD], MARKET) && PickBase([RICH], [], MARKET)
    ensures AllBelowMCR([POOR], MARKET) && AllAtMCR([RICH], MARKET) && AllAtMCR([SHIELD], MARKET)
    ensures Accepts(NET_DEBT_OF_ONE, Total(WITH_SHIELD), MARKET) && Accepts(NET_DEBT_OF_ONE, Total(WITH_POOR), MARKET)
  {
    TotalOfOne(RICH);
    TotalOfOne(SHIELD);
    TotalOfOne(POOR);
    assert WITH_POOR.bases[1..] == [RICH];
  }

  lemma RatiosFall()
    ensures !RatioKept(Total(WITH_SHIELD), Total(Lists([], [SHIELD]))) && !RatioKept(Total(WITH_POOR), Total(Lists([POOR], [])))
  {
    TotalOfOne(RICH);
    TotalOfOne(SHIELD);
    TotalOfOne(POOR);
    assert WITH_POOR.bases[1..] == [RICH];
  }

  lemma TotalOfOne(t: Position)
    ensures TotalDebt([t]) == t.debt && TotalColl([t]) == t.coll
  {
    assert [t][1..] == [];
  }

  /** A shielded trove of 200% is out of reach, so a base trove of 400% is closed before it and the total falls from 300% to 200%. */
  method ShieldCanLowerRatio() returns (ok: bool, l: Lists)
    ensures WITH_SHIELD.Ordered(MARKET)
    ensures ok && l == Lists([], [SHIELD]) && !RatioKept(Total(WITH_SHIELD), Total(l))
  {
    RunsSetUp();
    RatiosFall();
    hide Succeeds, Outcome, Splits, Booked, Safe, RatioKept, Total, Accepts, PickBase, RatioAtLeast, Lists.WithReserves, Lists.Ordered;
    assert [] + [RICH] == [RICH];
    var p, cancelled, skipped, rest;
    ok, l, p, cancelled, skipped, rest := RedeemCollateral(WITH_SHIELD, NET_DEBT_OF_ONE, MARKET);
    RunEnds(WITH_SHIELD, skipped, rest, []);
  }

  /**
   A trove of 105% is passed over but counts as one of the system, so the only other trove is closed, and the
   total falls from 252.5% to 105%.
   */
  method SkippedCanLowerRatio() returns (ok: bool, l: Lists)
    ensures ok && l == Lists([POOR], []) && !RatioKept(Total(WITH_POOR), Total(l))
  {
    RunsSetUp();
    RatiosFall();
    hide Succeeds, Outcome, Splits, Booked, Safe, RatioKept, Total, Accepts, PickBase, RatioAtLeast, Lists.WithReserves, Lists.Ordered;
    assert [POOR] + [RICH] == [POOR, RICH];
    var p, cancelled, skipped, rest;
    ok, l, p, cancelled, skipped, rest := RedeemCollateral(WITH_POOR, NET_DEBT_OF_ONE, MARKET);
    RunEnds(WITH_POOR, skipped, rest, [POOR]);
  }

  /** With one base trove of 400% at the minimum ratio or above, picked before any shielded one, the redemption closes it. */
  lemma RunEnds(start: Lists, skipped: Lists, rest: Lists, poor: seq<Position>)
    requires Splits(start, skipped, rest, MARKET) && start.bases == poor + [RICH] && |poor| + |start.shielded| > 0
    requires AllBelowMCR(poor, MARKET) && AllAtMCR([RICH], MARKET) && AllAtMCR(start.shielded, MARKET)
    requires PickBase([RICH], start.shielded, MARKET) && Accepts(NET_DEBT_OF_ONE, Total(start), MARKET)
    ensures rest.WithReserves() && Succeeds(NET_DEBT_OF_ONE, skipped, rest, MARKET)
    ensures var stop := Outcome(NET_DEBT_OF_ONE, skipped, rest, MARKET);
            stop.Finished? && Behind(skipped.bases, skipped.shielded, stop.lists) == Lists(poor, start.shielded)
  {
    SplitMeans(start, skipped, rest, MARKET);
    RunSplit(start, skipped, rest, poor);
    hide Outcome, Settles, Accepts, Splits, HasReserves, PickBase, AllAtMCR, AllBelowMCR, Total, Whole, Succeeds, Behind;
    RichCloses(skipped, rest);
    SucceedsIf(NET_DEBT_OF_ONE, skipped, rest, MARKET);
    BehindPoor(poor, start.shielded);
  }

  lemma RunSplit(start: Lists, skipped: Lists, rest: Lists, poor: seq<Position>)
    requires Splits(start, skipped, rest, MARKET) && start.bases == poor + [RICH]
    requires AllBelowMCR(poor, MARKET) && AllAtMCR([RICH], MARKET) && AllAtMCR(start.shielded, MARKET)
    ensures skipped == Lists(poor, []) && rest == Lists([RICH], start.shielded)
  {
    hide AllBelowMCR, AllAtMCR, Splits;
    assert start.bases[..|poor|] == poor && start.bases[|poor|..] == [RICH];
    SplitIs(start, skipped, rest, MARKET, |poor|);
  }

  lemma BehindPoor(poor: seq<Position>, shielded: seq<Position>)
    ensures Behind(poor, [], Lists([RICH][1..], shielded)) == Lists(poor, shielded)
  {
  }

  lemma SucceedsIf(q: Request, skipped: Lists, rest: Lists, m: Market)
    requires m.price > 0 && rest.WithReserves() && Accepts(q, Whole(skipped, rest), m)
    requires var stop := Outcome(q, skipped, rest, m);
             stop.Finished? && stop.progress.collDrawn > 0 && Settles(q, stop.progress)
    ensures Succeeds(q, skipped, rest, m)
  {
  }

  /** Zero means no limit. */
  function Limit(maxIterations: nat): nat {
    if maxIterations == 0 then UINT_MAX else maxIterations
  }
}
