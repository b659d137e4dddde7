/**
 Liquidation of single troves and of batches, in wei. Each trove pays gas compensation, offers
 its debt to the stability pool as far as the pool reaches, has the rest redistributed, and
 keeps what exceeds the liquidation penalties as a claimable surplus.
 */
module Liquidations {
  import opened Accounts
  import opened Arithmetic
  import opened Protocol

  /** A trove's entire normalized debt and collateral, and the accumulated rate of its list. */
  datatype Trove = Trove(debt: nat, coll: nat, rate: nat)

  datatype Market = Market(price: nat, par: nat)

  datatype Vals = Vals(
    debtToOffset: nat, actualDebtToOffset: nat, collToSP: nat,
    debtToRedistribute: nat, collToRedistribute: nat, collSurplus: nat)

  function ActualDebt(t: Trove): nat { t.debt * t.rate / RATE_PRECISION }

  function GasCompensation(t: Trove): nat { t.coll / PERCENT_DIVISOR }

  /** Below the minimum ratio; a trove without debt has an infinite ratio. */
  predicate Liquidatable(t: Trove, m: Market)
    requires m.par > 0
  {
    ActualDebt(t) > 0 && t.coll * m.price * DECIMAL_PRECISION / (ActualDebt(t) * m.par) < MCR
  }

  function MaxPenaltyColl(debt: nat, m: Market, penalty: nat): nat
    requires m.price > 0
  {
    debt * m.par * penalty / m.price / DECIMAL_PRECISION
  }

  /** The stability pool's collateral for an offset: the offset fraction, capped at the penalty. */
  function ShareToSP(coll: nat, offset: nat, actual: nat, m: Market): (share: nat)
    requires actual > 0 && offset <= actual && m.price > 0
    ensures share <= coll
  {
    FractionAtMost(coll, offset, actual);
    Min(coll * offset / actual, MaxPenaltyColl(offset, m, LIQUIDATION_PENALTY))
  }

  /** An amount of actual debt in normalized units. */
  function Normalized(offset: nat, t: Trove): (norm: nat)
    requires t.rate >= RATE_PRECISION
    ensures offset <= ActualDebt(t) ==> norm <= t.debt
  {
    if offset <= ActualDebt(t) then NormalizedAtMost(t, offset); offset * RATE_PRECISION / t.rate
    else offset * RATE_PRECISION / t.rate
  }

  /** Where the debt `t.debt` and the collateral `coll` (after gas compensation) go. */
  function CappedVals(t: Trove, coll: nat, lusdInSP: nat, m: Market): (v: Vals)
    requires ActualDebt(t) > 0 && t.rate >= RATE_PRECISION && m.price > 0
    ensures v.collToSP + v.collToRedistribute + v.collSurplus == coll
    ensures v.actualDebtToOffset == Min(ActualDebt(t), lusdInSP)
  {
    var actual := ActualDebt(t);
    if lusdInSP > 0 then
      var offset := Min(actual, lusdInSP);
      var norm := Normalized(offset, t);
      var toSP := ShareToSP(coll, offset, actual, m);
      if offset < actual then
        var toRedistribute := Min(MaxPenaltyColl(actual - offset, m, LIQUIDATION_PENALTY_REDIST), coll - toSP);
        Vals(norm, offset, toSP, t.debt - norm, toRedistribute, coll - toSP - toRedistribute)
      else
        Vals(norm, offset, toSP, 0, 0, coll - toSP)
    else
      var toRedistribute := Min(MaxPenaltyColl(actual, m, LIQUIDATION_PENALTY_REDIST), coll);
      Vals(0, 0, 0, t.debt, toRedistribute, coll - toRedistribute)
  }

  lemma FractionAtMost(coll: nat, part: nat, whole: nat)
    requires 0 < whole && part <= whole
    ensures coll * part / whole <= coll
  {
    DivBounds(coll * part, whole);
    assert coll * part <= coll * whole;
  }

  /** Rounding down twice never normalizes to more than the debt, and loses at most one unit of it. */
  lemma NormalizedAtMost(t: Trove, offset: nat)
    requires t.rate >= RATE_PRECISION && offset <= ActualDebt(t)
    ensures offset * RATE_PRECISION / t.rate <= t.debt
    ensures offset == ActualDebt(t) ==> t.debt <= offset * RATE_PRECISION / t.rate + 1
  {
    var norm := offset * RATE_PRECISION / t.rate;
    DivBounds(t.debt * t.rate, RATE_PRECISION);
    DivBounds(offset * RATE_PRECISION, t.rate);
    RoundTrip(t.debt, t.rate, offset, norm);
  }

  lemma RoundTrip(debt: nat, rate: nat, offset: nat, norm: nat)
    requires rate >= RATE_PRECISION
    requires norm * rate <= offset * RATE_PRECISION < (norm + 1) * rate
    requires offset * RATE_PRECISION <= debt * rate
    ensures norm <= debt
    ensures debt * rate < (offset + 1) * RATE_PRECISION ==> debt <= norm + 1
  {
    Monotone(debt + 1, norm, rate);
    Monotone(norm + 2, debt, rate);
  }

  /** A trove conserves its debt: exactly, except that a full offset may leave one normalized unit unbooked. */
  lemma DebtConserved(t: Trove, coll: nat, lusdInSP: nat, m: Market)
    requires ActualDebt(t) > 0 && t.rate >= RATE_PRECISION && m.price > 0
    ensures var v := CappedVals(t, coll, lusdInSP, m);
            var booked := v.debtToOffset + v.debtToRedistribute;
            booked <= t.debt <= booked + 1
            && (lusdInSP < ActualDebt(t) ==> booked == t.debt)
            && (t.rate == RATE_PRECISION ==> booked == t.debt)
  {
    NormalizedAtMost(t, Min(ActualDebt(t), lusdInSP));
  }

  /**
   The pool's part of the collateral is the offset fraction of it, rounded down, so the offset part
   has the trove's own ratio, unless that exceeds the penalty: then it is capped there.
   */
  lemma OffsetShare(t: Trove, coll: nat, lusdInSP: nat, m: Market)
    requires ActualDebt(t) > 0 && t.rate >= RATE_PRECISION && m.price > 0 && lusdInSP > 0
    ensures var v := CappedVals(t, coll, lusdInSP, m);
            v.collToSP * ActualDebt(t) <= coll * v.actualDebtToOffset
            && (v.collToSP < MaxPenaltyColl(v.actualDebtToOffset, m, LIQUIDATION_PENALTY)
                ==> coll * v.actualDebtToOffset < (v.collToSP + 1) * ActualDebt(t))
            && v.collToSP <= MaxPenaltyColl(v.actualDebtToOffset, m, LIQUIDATION_PENALTY)
  {
    var offset := Min(ActualDebt(t), lusdInSP);
    var share, cap := coll * offset / ActualDebt(t), MaxPenaltyColl(offset, m, LIQUIDATION_PENALTY);
    DivBounds(coll * offset, ActualDebt(t));
    if cap < share {
      assert cap * ActualDebt(t) <= share * ActualDebt(t);
    }
  }

  /** With an empty pool, a trove below the minimum ratio is redistributed whole: no surplus is left. */
  lemma RedistributedWhole(t: Trove, m: Market)
    requires m.par > 0 && Liquidatable(t, m) && t.rate >= RATE_PRECISION && m.price > 0
    ensures CappedVals(t, t.coll - GasCompensation(t), 0, m).collSurplus == 0
  {
    BelowMCR(t, m);
    hide Liquidatable, ActualDebt;
    WorthPenalty(t.coll, m.price, ActualDebt(t) * m.par, ActualDebt(t) * m.par * LIQUIDATION_PENALTY_REDIST);
  }

  /** Truncation does not matter: a trove can be liquidated exactly when its worth is below the minimum ratio on its debt. */
  lemma BelowMCR(t: Trove, m: Market)
    requires m.par > 0
    ensures Liquidatable(t, m) <==> ActualDebt(t) > 0 && t.coll * m.price * DECIMAL_PRECISION < MCR * (ActualDebt(t) * m.par)
  {
    hide ActualDebt;
    if ActualDebt(t) > 0 {
      QuotientBelow(t.coll * m.price * DECIMAL_PRECISION, ActualDebt(t) * m.par, MCR);
    }
  }

  /** The redistribution penalty is the minimum ratio. */
  lemma WorthPenalty(coll: nat, price: nat, worth: nat, x: nat)
    requires price > 0 && coll * price * DECIMAL_PRECISION < MCR * worth && x == worth * LIQUIDATION_PENALTY_REDIST
    ensures coll <= x / price / DECIMAL_PRECISION
  {
    NestedFloor(x, price, DECIMAL_PRECISION, coll);
  }

  lemma QuotientBelow(x: nat, y: nat, q: nat)
    requires y > 0
    ensures x / y < q <==> x < q * y
  {
    DivBounds(x, y);
    Monotone(x / y + 1, q, y);
    Monotone(q, x / y, y);
  }

  lemma NestedFloor(x: nat, y: nat, z: nat, c: nat)
    requires y > 0 && z > 0 && c * y * z <= x
    ensures c <= x / y / z
  {
    assert (c * z) * y == c * y * z;
    AtLeast(c * z, y, x);
    AtLeast(c, z, x / y);
  }

  lemma AtLeast(c: nat, y: nat, x: nat)
    requires y > 0 && c * y <= x
    ensures c <= x / y
  {
    DivBounds(x, y);
    Monotone(x / y + 1, c, y);
  }

  /** The largest collateral within a penalty: one wei more would break it. */
  lemma PenaltyTight(debt: nat, m: Market, penalty: nat)
    requires m.price > 0
    ensures var c := MaxPenaltyColl(debt, m, penalty);
            Capped(c, debt, penalty, m) && !Capped(c + 1, debt, penalty, m)
  {
    var x := debt * m.par * penalty;
    CappedByPenalty(MaxPenaltyColl(debt, m, penalty), debt, penalty, m);
    DivBounds(x, m.price);
    DivBounds(x / m.price, DECIMAL_PRECISION);
    BeyondFloor(x, m.price, x / m.price, x / m.price / DECIMAL_PRECISION);
  }

  lemma BeyondFloor(x: nat, price: nat, q: nat, c: nat)
    requires x < (q + 1) * price && q < (c + 1) * DECIMAL_PRECISION
    ensures (c + 1) * price * DECIMAL_PRECISION > x
  {
    Monotone(q + 1, (c + 1) * DECIMAL_PRECISION, price);
    assert (c + 1) * DECIMAL_PRECISION * price == (c + 1) * price * DECIMAL_PRECISION;
  }

  /** The pool's collateral is as much as its fraction of the debt and its penalty allow, to the wei. */
  predicate OffsetIsFair(coll: nat, actual: nat, v: Vals, m: Market) {
    if v.actualDebtToOffset == 0 then v.collToSP == 0
    else
      v.collToSP * actual <= coll * v.actualDebtToOffset && Capped(v.collToSP, v.actualDebtToOffset, LIQUIDATION_PENALTY, m)
      && (coll * v.actualDebtToOffset < (v.collToSP + 1) * actual
          || !Capped(v.collToSP + 1, v.actualDebtToOffset, LIQUIDATION_PENALTY, m))
  }

  /** With the debt that is left goes all other collateral, or as much as its penalty allows, to the wei; without, none. */
  predicate RestIsFair(actual: nat, v: Vals, m: Market) {
    if v.actualDebtToOffset >= actual then v.collToRedistribute == 0 && v.debtToRedistribute == 0
    else
      Capped(v.collToRedistribute, actual - v.actualDebtToOffset, LIQUIDATION_PENALTY_REDIST, m)
      && (v.collSurplus == 0 || !Capped(v.collToRedistribute + 1, actual - v.actualDebtToOffset, LIQUIDATION_PENALTY_REDIST, m))
  }

  /** For every balance of the pool, where the collateral goes. */
  lemma SplitsFairly(t: Trove, coll: nat, lusdInSP: nat, m: Market)
    requires ActualDebt(t) > 0 && t.rate >= RATE_PRECISION && m.price > 0
    ensures var v := CappedVals(t, coll, lusdInSP, m);
            OffsetIsFair(coll, ActualDebt(t), v, m) && RestIsFair(ActualDebt(t), v, m)
  {
    var v, actual := CappedVals(t, coll, lusdInSP, m), ActualDebt(t);
    ValsWithinPenalties(t, coll, lusdInSP, m);
    PenaltyTight(v.actualDebtToOffset, m, LIQUIDATION_PENALTY);
    PenaltyTight(actual - v.actualDebtToOffset, m, LIQUIDATION_PENALTY_REDIST);
    if lusdInSP > 0 { OffsetShare(t, coll, lusdInSP, m); }
    hide Capped, MaxPenaltyColl, ActualDebt, Normalized;
  }

  /** A surplus of more than one wei is left only where both penalties bind. */
  lemma SurplusBeyondBoth(t: Trove, lusdInSP: nat, m: Market)
    requires m.par > 0 && Liquidatable(t, m) && t.rate >= RATE_PRECISION && m.price > 0
    ensures var v := CappedVals(t, t.coll - GasCompensation(t), lusdInSP, m);
            (v.collSurplus > 1 && v.actualDebtToOffset > 0 ==> !Capped(v.collToSP + 1, v.actualDebtToOffset, LIQUIDATION_PENALTY, m))
            && (v.collSurplus > 0 && v.actualDebtToOffset < ActualDebt(t) ==>
                  !Capped(v.collToRedistribute + 1, ActualDebt(t) - v.actualDebtToOffset, LIQUIDATION_PENALTY_REDIST, m))
  {
    var coll := t.coll - GasCompensation(t);
    var v, actual := CappedVals(t, coll, lusdInSP, m), ActualDebt(t);
    BelowMCR(t, m);
    SplitsFairly(t, coll, lusdInSP, m);
    hide CappedVals, ActualDebt, GasCompensation, Liquidatable, Capped;
    if v.collSurplus > 1 && v.actualDebtToOffset > 0 && coll * v.actualDebtToOffset < (v.collToSP + 1) * actual {
      if v.actualDebtToOffset < actual {
        RestWithinPenalty(t.coll, coll, actual, v.actualDebtToOffset, v.collToSP, v.collToRedistribute + 1, m);
      } else {
        WholeOffset(coll, actual, v.collToSP);
      }
    }
  }

  lemma WholeOffset(coll: nat, actual: nat, share: nat)
    requires actual > 0 && coll * actual < (share + 1) * actual
    ensures coll <= share
  {
    CancelLess(coll, share + 1, actual);
  }

  /** Below the minimum ratio, what a proportional offset leaves is within the penalty on the debt it leaves. */
  lemma RestWithinPenalty(all: nat, coll: nat, actual: nat, offset: nat, share: nat, more: nat, m: Market)
    requires offset < actual && coll <= all && all * m.price * DECIMAL_PRECISION < MCR * (actual * m.par)
    requires coll * offset < (share + 1) * actual && more + share + 1 <= coll
    ensures Capped(more, actual - offset, LIQUIDATION_PENALTY_REDIST, m)
  {
    var rest, k, left := coll - share - 1, m.price * DECIMAL_PRECISION, actual - offset;
    var bound, cap := MCR * (actual * m.par), left * m.par * MCR;
    Grouped(all, m.price, DECIMAL_PRECISION, k);
    Grouped(more, m.price, DECIMAL_PRECISION, k);
    Regrouped(actual, m.par, left);
    RestBelow(rest, coll, actual, offset, share, left);
    LeftWithin(rest, coll, all, more, actual, left, k, bound, cap);
  }

  lemma Grouped(x: nat, y: nat, z: nat, yz: nat)
    requires yz == y * z
    ensures x * y * z == x * yz
  {
  }

  lemma LeftWithin(rest: nat, coll: nat, all: nat, more: nat, actual: nat, left: nat, k: nat, bound: nat, cap: nat)
    requires actual > 0 && more <= rest && rest * actual <= coll * left && coll <= all && all * k < bound && bound * left == cap * actual
    ensures more * k <= cap
  {
    WorthBelow(coll, all, k, bound, left);
    TimesBelow(rest, actual, coll * left, k);
    Penalized(more, rest, k, cap, actual);
  }

  lemma RestBelow(rest: nat, coll: nat, actual: nat, offset: nat, share: nat, left: nat)
    requires coll == rest + share + 1 && actual == offset + left && coll * offset < (share + 1) * actual
    ensures rest * actual <= coll * left
  {
    assert coll * actual == coll * offset + coll * left && coll * actual == rest * actual + (share + 1) * actual;
  }

  lemma WorthBelow(coll: nat, all: nat, k: nat, bound: nat, left: nat)
    requires coll <= all && all * k < bound
    ensures coll * left * k <= bound * left
  {
    Monotone(coll, all, k);
    Monotone(coll * k, bound, left);
    assert coll * left * k == coll * k * left;
  }

  lemma Regrouped(actual: nat, par: nat, left: nat)
    ensures MCR * (actual * par) * left == left * par * MCR * actual
  {
    assert actual * par * left == left * par * actual;
  }

  lemma Penalized(more: nat, rest: nat, k: nat, bound: nat, actual: nat)
    requires actual > 0 && more <= rest && rest * k * actual <= bound * actual
    ensures more * k <= bound
  {
    CancelAtMost(rest * k, bound, actual);
    Monotone(more, rest, k);
  }

  lemma TimesBelow(rest: nat, actual: nat, y: nat, k: nat)
    requires rest * actual <= y
    ensures rest * k * actual <= y * k
  {
    Monotone(rest * actual, y, k);
    assert rest * k * actual == rest * actual * k;
  }

  lemma CancelAtMost(x: nat, y: nat, d: nat)
    requires d > 0 && x * d <= y * d
    ensures x <= y
  {
    if y < x { Monotone(y + 1, x, d); }
  }

  // ----- batches

  /** Running totals of a liquidation sequence. */
  datatype Totals = Totals(
    liquidated: nat, collInSequence: nat, collGasCompensation: nat, lusdGasCompensation: nat,
    debtInSequence: nat, debtToOffset: nat, actualDebtToOffset: nat, collToSP: nat,
    debtToRedistribute: nat, collToRedistribute: nat, collSurplus: nat)

  function AddToTotals(s: Totals, t: Trove, v: Vals): Totals {
    Totals(s.liquidated + 1, s.collInSequence + t.coll, s.collGasCompensation + GasCompensation(t),
           s.lusdGasCompensation + LUSD_GAS_COMPENSATION,
           s.debtInSequence + t.debt, s.debtToOffset + v.debtToOffset, s.actualDebtToOffset + v.actualDebtToOffset,
           s.collToSP + v.collToSP, s.debtToRedistribute + v.debtToRedistribute,
           s.collToRedistribute + v.collToRedistribute, s.collSurplus + v.collSurplus)
  }

  /** The listed troves that are below the minimum ratio, each with its actual debt. */
  ghost function Hits(troves: map<Address, Trove>, list: seq<Address>, m: Market): map<Address, real>
    requires m.par > 0
  {
    map b | b in list && b in troves && Liquidatable(troves[b], m) :: ActualDebt(troves[b]) as real
  }

  /** Every unit of collateral is booked once, and debt is booked up to one unit per trove. */
  predicate Conserves(s: Totals) {
    s.collGasCompensation + s.collToSP + s.collToRedistribute + s.collSurplus == s.collInSequence
    && s.lusdGasCompensation == LUSD_GAS_COMPENSATION * s.liquidated
    && s.debtToOffset + s.debtToRedistribute <= s.debtInSequence <= s.debtToOffset + s.debtToRedistribute + s.liquidated
  }

  /** Neither pool gets more collateral than its penalty allows for the debt it takes. */
  predicate WithinPenalties(s: Totals, debtSeen: nat, m: Market) {
    s.actualDebtToOffset <= debtSeen
    && Capped(s.collToSP, s.actualDebtToOffset, LIQUIDATION_PENALTY, m)
    && Capped(s.collToRedistribute, debtSeen - s.actualDebtToOffset, LIQUIDATION_PENALTY_REDIST, m)
  }

  predicate Capped(coll: nat, debt: nat, penalty: nat, m: Market) {
    coll * m.price * DECIMAL_PRECISION <= debt * m.par * penalty
  }

  lemma CappedAdd(coll: nat, debt: nat, coll': nat, debt': nat, penalty: nat, m: Market)
    requires Capped(coll, debt, penalty, m) && Capped(coll', debt', penalty, m)
    ensures Capped(coll + coll', debt + debt', penalty, m)
  {
  }

  lemma CappedByPenalty(coll: nat, debt: nat, penalty: nat, m: Market)
    requires m.price > 0 && coll <= MaxPenaltyColl(debt, m, penalty)
    ensures Capped(coll, debt, penalty, m)
  {
    var x := debt * m.par * penalty;
    DivBounds(x, m.price);
    DivBounds(x / m.price, DECIMAL_PRECISION);
    Monotone(coll, x / m.price / DECIMAL_PRECISION, DECIMAL_PRECISION);
    Monotone(coll * DECIMAL_PRECISION, x / m.price, m.price);
    assert coll * m.price * DECIMAL_PRECISION == coll * DECIMAL_PRECISION * m.price;
  }

  lemma NothingCapped(penalty: nat, m: Market)
    ensures Capped(0, 0, penalty, m)
  {
  }

  /** One more trove keeps both penalties. */
  lemma AddWithinPenalties(s: Totals, debtSeen: nat, t: Trove, coll: nat, lusdInSP: nat, m: Market)
    requires ActualDebt(t) > 0 && t.rate >= RATE_PRECISION && m.price > 0 && WithinPenalties(s, debtSeen, m)
    ensures WithinPenalties(AddToTotals(s, t, CappedVals(t, coll, lusdInSP, m)), debtSeen + ActualDebt(t), m)
  {
    var v := CappedVals(t, coll, lusdInSP, m);
    ValsWithinPenalties(t, coll, lusdInSP, m);
    hide CappedVals, Capped, ActualDebt, GasCompensation;
    CappedAdd(s.collToSP, s.actualDebtToOffset, v.collToSP, v.actualDebtToOffset, LIQUIDATION_PENALTY, m);
    CappedAdd(s.collToRedistribute, debtSeen - s.actualDebtToOffset,
              v.collToRedistribute, ActualDebt(t) - v.actualDebtToOffset, LIQUIDATION_PENALTY_REDIST, m);
  }

  lemma ValsWithinPenalties(t: Trove, coll: nat, lusdInSP: nat, m: Market)
    requires ActualDebt(t) > 0 && t.rate >= RATE_PRECISION && m.price > 0
    ensures var v := CappedVals(t, coll, lusdInSP, m);
            v.actualDebtToOffset <= ActualDebt(t)
            && Capped(v.collToSP, v.actualDebtToOffset, LIQUIDATION_PENALTY, m)
            && Capped(v.collToRedistribute, ActualDebt(t) - v.actualDebtToOffset, LIQUIDATION_PENALTY_REDIST, m)
  {
    hide Capped, MaxPenaltyColl, ActualDebt, Normalized;
    var v, actual := CappedVals(t, coll, lusdInSP, m), ActualDebt(t);
    NothingCapped(LIQUIDATION_PENALTY, m);
    NothingCapped(LIQUIDATION_PENALTY_REDIST, m);
    if lusdInSP > 0 {
      CappedByPenalty(v.collToSP, v.actualDebtToOffset, LIQUIDATION_PENALTY, m);
    }
    if v.actualDebtToOffset < actual {
      CappedByPenalty(v.collToRedistribute, actual - v.actualDebtToOffset, LIQUIDATION_PENALTY_REDIST, m);
    }
  }

  /** The offset covers the debt seen so far as far as the pool reaches, and an empty pool leaves no surplus. */
  predicate Tallied(s: Totals, debtSeen: nat, lusdInSP: nat, m: Market) {
    Conserves(s) && WithinPenalties(s, debtSeen, m)
    && s.actualDebtToOffset == Min(lusdInSP, debtSeen)
    && (lusdInSP == 0 ==> s.collSurplus == 0)
  }

  lemma AddConserves(s: Totals, t: Trove, lusdInSP: nat, m: Market)
    requires ActualDebt(t) > 0 && t.rate >= RATE_PRECISION && m.price > 0 && Conserves(s)
    ensures Conserves(AddToTotals(s, t, CappedVals(t, t.coll - GasCompensation(t), lusdInSP, m)))
  {
    DebtConserved(t, t.coll - GasCompensation(t), lusdInSP, m);
    hide CappedVals, ActualDebt, GasCompensation;
  }

  lemma AddTallied(s: Totals, debtSeen: nat, t: Trove, lusdInSP: nat, m: Market)
    requires m.par > 0 && m.price > 0 && t.rate >= RATE_PRECISION && Liquidatable(t, m) && Tallied(s, debtSeen, lusdInSP, m)
    ensures var v := CappedVals(t, t.coll - GasCompensation(t), lusdInSP - s.actualDebtToOffset, m);
            Tallied(AddToTotals(s, t, v), debtSeen + ActualDebt(t), lusdInSP, m)
  {
    hide CappedVals, ActualDebt, GasCompensation, Conserves, WithinPenalties;
    var remaining := lusdInSP - s.actualDebtToOffset;
    AddConserves(s, t, remaining, m);
    AddWithinPenalties(s, debtSeen, t, t.coll - GasCompensation(t), remaining, m);
    if lusdInSP == 0 { RedistributedWhole(t, m); }
    hide Liquidatable;
  }

  /** The troves left open after the first `i` of a list, and what was hit among them. */
  ghost predicate After(troves: map<Address, Trove>, list: seq<Address>, i: nat, m: Market,
                        open: map<Address, Trove>, hits: map<Address, real>)
    requires m.par > 0 && i <= |list|
  {
    hits == Hits(troves, list[..i], m) && open == troves - hits.Keys
  }

  /** Listing one more trove adds it to the hits unless it is closed, already hit, or not below the minimum ratio. */
  lemma HitsStep(troves: map<Address, Trove>, list: seq<Address>, i: nat, m: Market, open: map<Address, Trove>, hits: map<Address, real>)
    requires m.par > 0 && i < |list| && After(troves, list, i, m, open, hits)
    ensures var b := list[i];
            if b in open && Liquidatable(open[b], m) then
              var debt := ActualDebt(open[b]) as real;
              b in troves && open[b] == troves[b] && After(troves, list, i + 1, m, open - {b}, hits[b := debt])
              && |hits[b := debt]| == |hits| + 1 && Total(hits[b := debt]) == Total(hits) + debt
            else
              After(troves, list, i + 1, m, open, hits)
  {
    hide Liquidatable, ActualDebt;
    var b := list[i];
    assert list[..i + 1] == list[..i] + [b];
    if b in open && Liquidatable(open[b], m) {
      TotalUpdate(hits, b, ActualDebt(open[b]) as real);
    }
  }

  // ----- the parts of a batch

  /** What was decided for one liquidated trove. */
  datatype Part = Part(borrower: Address, trove: Trove, vals: Vals)

  /** All of the collateral beyond the half percent for the liquidator is placed, and placed fairly; debt up to one unit. */
  ghost predicate PartIs(troves: map<Address, Trove>, p: Part, m: Market)
    requires m.par > 0
  {
    p.borrower in troves && p.trove == troves[p.borrower] && Liquidatable(p.trove, m)
    && Placed(p.vals, p.trove.coll - GasCompensation(p.trove), p.trove.debt)
    && OffsetIsFair(p.trove.coll - GasCompensation(p.trove), ActualDebt(p.trove), p.vals, m)
    && RestIsFair(ActualDebt(p.trove), p.vals, m)
    && (p.vals.collSurplus > 1 && p.vals.actualDebtToOffset > 0 ==>
          !Capped(p.vals.collToSP + 1, p.vals.actualDebtToOffset, LIQUIDATION_PENALTY, m))
  }

  predicate Placed(v: Vals, coll: nat, debt: nat) {
    v.collToSP + v.collToRedistribute + v.collSurplus == coll
    && v.debtToOffset + v.debtToRedistribute <= debt <= v.debtToOffset + v.debtToRedistribute + 1
  }

  function GasIn(p: Part): nat { p.trove.coll / PERCENT_DIVISOR }
  function CollIn(p: Part): nat { p.trove.coll }
  function DebtIn(p: Part): nat { p.trove.debt }
  function OffsetIn(p: Part): nat { p.vals.debtToOffset }
  function ActualOffsetIn(p: Part): nat { p.vals.actualDebtToOffset }
  function ToSPIn(p: Part): nat { p.vals.collToSP }
  function RestDebtIn(p: Part): nat { p.vals.debtToRedistribute }
  function RestCollIn(p: Part): nat { p.vals.collToRedistribute }
  function SurplusIn(p: Part): nat { p.vals.collSurplus }

  ghost function SumOver(parts: seq<Part>, f: Part -> nat): nat {
    if parts == [] then 0 else SumOver(parts[..|parts| - 1], f) + f(parts[|parts| - 1])
  }

  lemma SumOverAppend(parts: seq<Part>, p: Part, f: Part -> nat)
    ensures SumOver(parts + [p], f) == SumOver(parts, f) + f(p)
  {
    assert (parts + [p])[..|parts|] == parts;
  }

  /** The totals of a batch are the sums over its troves. */
  ghost predicate SumsUp(s: Totals, parts: seq<Part>) {
    s.liquidated == |parts| && s.lusdGasCompensation == LUSD_GAS_COMPENSATION * |parts|
    && s.collInSequence == SumOver(parts, CollIn) && s.debtInSequence == SumOver(parts, DebtIn)
    && s.collGasCompensation == SumOver(parts, GasIn)
    && s.debtToOffset == SumOver(parts, OffsetIn)
    && s.actualDebtToOffset == SumOver(parts, ActualOffsetIn)
    && s.collToSP == SumOver(parts, ToSPIn)
    && s.debtToRedistribute == SumOver(parts, RestDebtIn)
    && s.collToRedistribute == SumOver(parts, RestCollIn)
    && s.collSurplus == SumOver(parts, SurplusIn)
  }

  lemma AddPart(s: Totals, parts: seq<Part>, p: Part)
    requires SumsUp(s, parts)
    ensures SumsUp(AddToTotals(s, p.trove, p.vals), parts + [p])
  {
    SumOverAppend(parts, p, CollIn);
    SumOverAppend(parts, p, DebtIn);
    SumOverAppend(parts, p, GasIn);
    SumOverAppend(parts, p, OffsetIn);
    SumOverAppend(parts, p, ActualOffsetIn);
    SumOverAppend(parts, p, ToSPIn);
    SumOverAppend(parts, p, RestDebtIn);
    SumOverAppend(parts, p, RestCollIn);
    SumOverAppend(parts, p, SurplusIn);
    hide SumOver;
  }

  lemma PartOf(troves: map<Address, Trove>, b: Address, lusdInSP: nat, m: Market)
    requires m.par > 0 && m.price > 0 && b in troves && Liquidatable(troves[b], m) && troves[b].rate >= RATE_PRECISION
    ensures ActualDebt(troves[b]) > 0
    ensures PartIs(troves, Part(b, troves[b], CappedVals(troves[b], troves[b].coll - GasCompensation(troves[b]), lusdInSP, m)), m)
  {
    var t := troves[b];
    PositiveDebt(t, m);
    SplitsFairly(t, t.coll - GasCompensation(t), lusdInSP, m);
    SurplusBeyondBoth(t, lusdInSP, m);
    DebtConserved(t, t.coll - GasCompensation(t), lusdInSP, m);
    hide ActualDebt, Liquidatable, OffsetIsFair, RestIsFair, Capped;
    assert CappedVals(t, t.coll - GasCompensation(t), lusdInSP, m).collToSP
           + CappedVals(t, t.coll - GasCompensation(t), lusdInSP, m).collToRedistribute
           + CappedVals(t, t.coll - GasCompensation(t), lusdInSP, m).collSurplus == t.coll - GasCompensation(t);
    hide CappedVals, GasCompensation;
  }

  /** One part for each trove that was hit. */
  ghost predicate PartsOf(troves: map<Address, Trove>, parts: seq<Part>, m: Market, hits: map<Address, real>)
    requires m.par > 0
  {
    (forall i | 0 <= i < |parts| :: PartIs(troves, parts[i], m))
    && (forall i, j | 0 <= i < j < |parts| :: parts[i].borrower != parts[j].borrower)
    && hits.Keys == set i | 0 <= i < |parts| :: parts[i].borrower
  }

  lemma PartsGrow(troves: map<Address, Trove>, parts: seq<Part>, m: Market, hits: map<Address, real>, p: Part, debt: real)
    requires m.par > 0 && PartsOf(troves, parts, m, hits) && PartIs(troves, p, m) && p.borrower !in hits
    ensures PartsOf(troves, parts + [p], m, hits[p.borrower := debt])
  {
    hide PartIs;
    var more := parts + [p];
    assert more[|parts|] == p && forall i | 0 <= i < |parts| :: more[i] == parts[i];
    var before, after := set i | 0 <= i < |parts| :: parts[i].borrower, set i | 0 <= i < |more| :: more[i].borrower;
    assert after == before + {p.borrower};
  }

  /** The debt of some troves in whole wei. */
  ghost function DebtOf(hits: map<Address, real>): int { Total(hits).Floor }

  /** Nothing is lost in whole wei. */
  lemma DebtIsWhole(troves: map<Address, Trove>, list: seq<Address>, m: Market)
    requires m.par > 0
    ensures DebtOf(Hits(troves, list, m)) as real == Total(Hits(troves, list, m))
  {
    hide Liquidatable, ActualDebt;
    TotalWhole(Hits(troves, list, m));
    hide Total;
  }

  /**
   Walks a caller's list, skips troves that are closed or not below the minimum ratio, and liquidates the
   others: a trove that is listed again is closed by then. `debt` is the actual debt liquidated.
   */
  method BatchLiquidate(troves: map<Address, Trove>, list: seq<Address>, lusdInSP: nat, m: Market)
    returns (totals: Totals, open: map<Address, Trove>, debt: nat, ghost parts: seq<Part>)
    requires m.par > 0 && m.price > 0 && forall b | b in troves :: troves[b].rate >= RATE_PRECISION
    ensures open == troves - Hits(troves, list, m).Keys
    ensures totals.liquidated == |Hits(troves, list, m)| && debt == DebtOf(Hits(troves, list, m))
    ensures totals.actualDebtToOffset == Min(lusdInSP, debt)
    ensures Conserves(totals) && WithinPenalties(totals, debt, m)
    ensures lusdInSP == 0 ==> totals.collSurplus == 0
    ensures PartsOf(troves, parts, m, Hits(troves, list, m)) && SumsUp(totals, parts)
  {
    hide PartsOf, PartIs, SumsUp, Hits, After, Tallied, Conserves, WithinPenalties, CappedVals, Liquidatable, ActualDebt, GasCompensation, Total;
    totals, open, debt := Totals(0, 0, 0, 0, 0, 0, 0, 0, 0, 0, 0), troves, 0;
    var remaining: nat := lusdInSP;
    ghost var hits: map<Address, real> := map[];
    NothingTallied(lusdInSP, m);
    NothingHit(troves, list, m);
    parts := [];
    NoParts(troves, m);
    for i := 0 to |list|
      invariant After(troves, list, i, m, open, hits)
      invariant totals.liquidated == |hits| && debt as real == Total(hits)
      invariant PartsOf(troves, parts, m, hits) && SumsUp(totals, parts)
      invariant Tallied(totals, debt, lusdInSP, m) && remaining + totals.actualDebtToOffset == lusdInSP
    {
      var b := list[i];
      HitsStep(troves, list, i, m, open, hits);
      if b in open && Liquidatable(open[b], m) {
        var t := open[b];
        AddTallied(totals, debt, t, lusdInSP, m);
        PositiveDebt(t, m);
        PartOf(troves, b, remaining, m);
        NotHitYet(troves, list, i, m, open, hits, b);
        var v := CappedVals(t, t.coll - GasCompensation(t), remaining, m);
        AddPart(totals, parts, Part(b, t, v));
        PartsGrow(troves, parts, m, hits, Part(b, t, v), ActualDebt(t) as real);
        parts := parts + [Part(b, t, v)];
        totals, remaining := AddToTotals(totals, t, v), remaining - v.actualDebtToOffset;
        open, debt, hits := open - {b}, debt + ActualDebt(t), hits[b := ActualDebt(t) as real];
      }
    }
    AllHit(troves, list, m, open, hits);
    TalliedMeans(totals, debt, lusdInSP, m);
  }

  lemma NoParts(troves: map<Address, Trove>, m: Market)
    requires m.par > 0
    ensures PartsOf(troves, [], m, map[]) && SumsUp(Totals(0, 0, 0, 0, 0, 0, 0, 0, 0, 0, 0), [])
  {
  }

  lemma NotHitYet(troves: map<Address, Trove>, list: seq<Address>, i: nat, m: Market, open: map<Address, Trove>, hits: map<Address, real>, b: Address)
    requires m.par > 0 && i <= |list| && After(troves, list, i, m, open, hits) && b in open
    ensures b !in hits && b in troves && open[b] == troves[b]
  {
    hide Hits;
  }

  lemma AllHit(troves: map<Address, Trove>, list: seq<Address>, m: Market, open: map<Address, Trove>, hits: map<Address, real>)
    requires m.par > 0 && After(troves, list, |list|, m, open, hits)
    ensures hits == Hits(troves, list, m) && open == troves - hits.Keys
  {
    assert list[..|list|] == list;
  }

  lemma TalliedMeans(s: Totals, debt: nat, lusdInSP: nat, m: Market)
    requires Tallied(s, debt, lusdInSP, m)
    ensures Conserves(s) && WithinPenalties(s, debt, m) && s.actualDebtToOffset == Min(lusdInSP, debt)
    ensures lusdInSP == 0 ==> s.collSurplus == 0
  {
  }

  lemma NothingHit(troves: map<Address, Trove>, list: seq<Address>, m: Market)
    requires m.par > 0
    ensures After(troves, list, 0, m, troves, map[]) && Total(map[]) == 0.0
  {
  }

  lemma PositiveDebt(t: Trove, m: Market)
    requires m.par > 0 && Liquidatable(t, m)
    ensures ActualDebt(t) > 0
  {
  }

  lemma NothingTallied(lusdInSP: nat, m: Market)
    ensures Tallied(Totals(0, 0, 0, 0, 0, 0, 0, 0, 0, 0, 0), 0, lusdInSP, m)
  {
    NothingCapped(LIQUIDATION_PENALTY, m);
    NothingCapped(LIQUIDATION_PENALTY_REDIST, m);
  }

  /** A list liquidates as much debt as two lists in turn: the second meets the troves that the first left open. */
  lemma InTwoBatches(troves: map<Address, Trove>, list: seq<Address>, others: seq<Address>, m: Market)
    requires m.par > 0
    ensures var first := Hits(troves, list, m);
            var second := Hits(troves - first.Keys, others, m);
            Hits(troves, list + others, m) == first + second
            && Total(Hits(troves, list + others, m)) == Total(first) + Total(second)
  {
    hide Liquidatable, ActualDebt;
    var first := Hits(troves, list, m);
    TotalDisjoint(first, Hits(troves - first.Keys, others, m));
    hide Total;
  }

  /** What is liquidated, and so the debt offset, depends neither on the order of the list nor on repetitions. */
  lemma OrderIrrelevant(troves: map<Address, Trove>, list: seq<Address>, others: seq<Address>, m: Market)
    requires m.par > 0 && forall b :: b in list <==> b in others
    ensures Hits(troves, list, m) == Hits(troves, others, m)
  {
    hide Liquidatable, ActualDebt;
  }
}
