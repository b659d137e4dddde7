/**
 The redistribution bookkeeping in wei, with truncating division and error feedback.

 Collateral and debt are kept in two alike sides: a running per-unit sum, the remainder of the
 last division, the default pool's balance and one snapshot per trove. Stakes are shared. The
 measure of everything is `Slack`: what the default pool holds beyond what is owed to the
 troves and beyond the remainder still to be distributed, in units of 1e-18 wei.
 */
module Rewards {
  import opened Accounts
  import opened Arithmetic
  import Liquidations
  import opened Protocol

  datatype Side = Side(perUnit: nat, error: nat, pool: nat, snaps: map<Address, nat>)

  type Stakes = map<Address, nat>

  // ----- one side

  ghost predicate SideOk(d: Side, stakes: Stakes) {
    d.snaps.Keys == stakes.Keys && forall b | b in d.snaps :: d.snaps[b] <= d.perUnit
  }

  /** What stake `b` has earned since its snapshot, before it is divided by the precision. */
  function Raw(d: Side, stakes: Stakes, b: Address): int
    requires b in stakes && b in d.snaps
  {
    Earned(stakes[b], d.perUnit, d.snaps[b])
  }

  function Earned(stake: int, perUnit: int, snap: int): int {
    stake * (perUnit - snap)
  }

  lemma EarnedFacts(stake: nat, perUnit: nat, snap: nat)
    ensures Earned(stake, perUnit, perUnit) == 0
    ensures snap <= perUnit ==> Earned(stake, perUnit, snap) >= 0
    ensures forall k :: Earned(stake, perUnit + k, snap) == Earned(stake, perUnit, snap) + stake * k
    ensures forall later :: Earned(later, perUnit, snap) == Earned(stake, perUnit, snap) + Earned(later - stake, perUnit, snap)
  {
  }

  function Pending(d: Side, stakes: Stakes, b: Address): int
    requires b in stakes && b in d.snaps
  {
    Raw(d, stakes, b) / DECIMAL_PRECISION
  }

  ghost function Raws(d: Side, stakes: Stakes): map<Address, real>
    requires d.snaps.Keys == stakes.Keys
  {
    map b | b in stakes :: Raw(d, stakes, b) as real
  }

  ghost function StakeTable(stakes: Stakes): map<Address, real> {
    map b | b in stakes :: stakes[b] as real
  }

  ghost function Slack(d: Side, stakes: Stakes): real
    requires d.snaps.Keys == stakes.Keys
  {
    (DECIMAL_PRECISION * d.pool) as real - Total(Raws(d, stakes)) - d.error as real
  }

  /** Adds an amount to the pool and to the per-unit sum, keeping the remainder for next time. */
  function Spread(d: Side, amount: nat, totalStakes: nat): Side
    requires totalStakes > 0
  {
    var numerator := amount * DECIMAL_PRECISION + d.error;
    d.(perUnit := d.perUnit + numerator / totalStakes, error := numerator % totalStakes, pool := d.pool + amount)
  }

  /** The sum moves by the amount and the carried remainder per unit staked, and what is left over is carried on. */
  predicate Quotients(perUnit: nat, error: nat, amount: nat, totalStakes: nat, perUnit': nat, error': nat) {
    perUnit' * totalStakes + error' == perUnit * totalStakes + amount * DECIMAL_PRECISION + error
  }

  lemma SpreadExact(d: Side, amount: nat, totalStakes: nat)
    requires totalStakes > 0
    ensures var r := Spread(d, amount, totalStakes);
            r.error < totalStakes && Quotients(d.perUnit, d.error, amount, totalStakes, r.perUnit, r.error)
  {
    var numerator := amount * DECIMAL_PRECISION + d.error;
    Division(numerator, totalStakes);
    assert (d.perUnit + numerator / totalStakes) * totalStakes == d.perUnit * totalStakes + numerator / totalStakes * totalStakes;
  }

  /** A reward is what a stake has earned since its snapshot, in whole wei. */
  predicate RewardIs(stake: nat, perUnit: nat, snap: nat, reward: nat) {
    reward * DECIMAL_PRECISION <= stake * (perUnit - snap) < (reward + 1) * DECIMAL_PRECISION
  }

  lemma PendingIs(d: Side, stakes: Stakes, b: Address, reward: nat)
    requires b in stakes && b in d.snaps && reward == Pending(d, stakes, b)
    ensures RewardIs(stakes[b], d.perUnit, d.snaps[b], reward)
  {
  }

  /** Takes a truncated reward out of the pool and renews the snapshot. */
  function Pay(d: Side, stakes: Stakes, b: Address): Side
    requires b in stakes && b in d.snaps && 0 <= Pending(d, stakes, b) <= d.pool
  {
    d.(pool := d.pool - Pending(d, stakes, b), snaps := d.snaps[b := d.perUnit])
  }

  /** Drops the snapshot of a trove that leaves. */
  function Leave(d: Side, b: Address): Side { d.(snaps := d.snaps - {b}) }

  lemma NothingPending(d: Side, stakes: Stakes, b: Address)
    requires b in stakes && b in d.snaps && d.snaps[b] == d.perUnit
    ensures Raw(d, stakes, b) == 0 && Pending(d, stakes, b) == 0
  {
  }

  /** A redistribution neither creates nor destroys slack: the remainder is carried, not lost. */
  lemma SpreadKeepsSlack(d: Side, stakes: Stakes, amount: nat, totalStakes: nat)
    requires SideOk(d, stakes) && totalStakes > 0 && totalStakes as real == Total(StakeTable(stakes))
    ensures SideOk(Spread(d, amount, totalStakes), stakes)
    ensures Slack(Spread(d, amount, totalStakes), stakes) == Slack(d, stakes)
  {
    hide Total, Earned;
    var numerator := amount * DECIMAL_PRECISION + d.error;
    Division(numerator, totalStakes);
    SlackOfSpread(d, stakes, amount, totalStakes, numerator / totalStakes, numerator % totalStakes);
  }

  lemma SlackOfSpread(d: Side, stakes: Stakes, amount: nat, totalStakes: nat, k: nat, e: nat)
    requires SideOk(d, stakes) && totalStakes as real == Total(StakeTable(stakes))
    requires amount * DECIMAL_PRECISION + d.error == k * totalStakes + e
    ensures var r := d.(perUnit := d.perUnit + k, error := e, pool := d.pool + amount);
            SideOk(r, stakes) && Slack(r, stakes) == Slack(d, stakes)
  {
    hide Total, Earned;
    var r := d.(perUnit := d.perUnit + k, error := e, pool := d.pool + amount);
    SpreadTotals(d, stakes, k, r);
    assert (k * totalStakes) as real == k as real * totalStakes as real;
    assert DECIMAL_PRECISION * r.pool == DECIMAL_PRECISION * d.pool + amount * DECIMAL_PRECISION;
  }

  lemma Division(x: int, y: int)
    requires y > 0
    ensures x == x / y * y + x % y && 0 <= x % y < y && (x >= 0 ==> x / y >= 0)
  {
  }

  lemma SpreadTotals(d: Side, stakes: Stakes, k: nat, r: Side)
    requires SideOk(d, stakes) && r.snaps == d.snaps && r.perUnit == d.perUnit + k
    ensures Times(Total(Raws(r, stakes)) - Total(Raws(d, stakes)), k as real, Total(StakeTable(stakes)))
  {
    hide Total, Earned, Times, Raw;
    var share := map b | b in stakes :: (stakes[b] * k) as real;
    forall b | b in stakes
      ensures Raws(r, stakes)[b] == Raws(d, stakes)[b] + share[b]
      ensures Times(share[b], k as real, StakeTable(stakes)[b])
    {
      RawGrows(d, stakes, b, r, k);
    }
    assert share.Keys == stakes.Keys;
    TotalAdd(Raws(r, stakes), Raws(d, stakes), share);
    TotalTimes(share, k as real, StakeTable(stakes));
    assert Total(share) == Total(Raws(r, stakes)) - Total(Raws(d, stakes));
  }

  lemma RawGrows(d: Side, stakes: Stakes, b: Address, r: Side, k: nat)
    requires b in stakes && b in d.snaps && r.snaps == d.snaps && r.perUnit == d.perUnit + k
    ensures Raw(r, stakes, b) == Raw(d, stakes, b) + stakes[b] * k
    ensures Times((stakes[b] * k) as real, k as real, stakes[b] as real)
  {
    EarnedFacts(stakes[b], d.perUnit, d.snaps[b]);
    hide Earned;
  }

  /** Paying out leaves the truncated part behind: less than one wei. */
  lemma PaySlack(d: Side, stakes: Stakes, b: Address)
    requires SideOk(d, stakes) && b in stakes && Slack(d, stakes) >= 0.0
    ensures 0 <= Pending(d, stakes, b) <= d.pool
    ensures SideOk(Pay(d, stakes, b), stakes) && Raw(Pay(d, stakes, b), stakes, b) == 0
    ensures Slack(Pay(d, stakes, b), stakes) == Slack(d, stakes) + (Raw(d, stakes, b) % DECIMAL_PRECISION) as real
  {
    hide Total, Earned;
    Division(Raw(d, stakes, b), DECIMAL_PRECISION);
    RawsNonNegative(d, stakes);
    assert Raws(d, stakes)[b] <= Total(Raws(d, stakes));
    SlackOfPay(d, stakes, b, Raw(d, stakes, b) / DECIMAL_PRECISION, Raw(d, stakes, b) % DECIMAL_PRECISION);
  }

  /** Paying out, whether or not the side is covered: the trove is current, and the slack grows by less than one wei. */
  lemma Paid(d: Side, stakes: Stakes, b: Address)
    requires SideOk(d, stakes) && b in stakes
    ensures 0 <= Pending(d, stakes, b)
    ensures Slack(d, stakes) >= 0.0 ==>
              Pending(d, stakes, b) <= d.pool
              && Slack(d, stakes) <= Slack(Pay(d, stakes, b), stakes) < Slack(d, stakes) + DECIMAL_PRECISION as real
  {
    hide Slack, Total, Earned;
    RawsNonNegative(d, stakes);
    Division(Raw(d, stakes, b), DECIMAL_PRECISION);
    if Slack(d, stakes) >= 0.0 { PaySlack(d, stakes, b); }
  }

  lemma SlackOfPay(d: Side, stakes: Stakes, b: Address, q: nat, m: nat)
    requires SideOk(d, stakes) && b in stakes && Slack(d, stakes) >= 0.0
    requires Raw(d, stakes, b) == q * DECIMAL_PRECISION + m && Raw(d, stakes, b) as real <= Total(Raws(d, stakes))
    ensures q <= d.pool
    ensures var r := d.(pool := d.pool - q, snaps := d.snaps[b := d.perUnit]);
            SideOk(r, stakes) && Raw(r, stakes, b) == 0 && Slack(r, stakes) == Slack(d, stakes) + m as real
  {
    Covered(d.pool, q, m, Total(Raws(d, stakes)), d.error);
    var r := d.(pool := d.pool - q, snaps := d.snaps[b := d.perUnit]);
    RawsPaid(d, stakes, b, r);
    hide Total, Earned;
    TotalUpdate(Raws(d, stakes), b, 0.0);
    assert (DECIMAL_PRECISION * r.pool) == DECIMAL_PRECISION * d.pool - q * DECIMAL_PRECISION;
  }

  lemma Covered(pool: nat, q: nat, m: nat, owed: real, error: nat)
    requires (DECIMAL_PRECISION * pool) as real - owed - error as real >= 0.0
    requires (q * DECIMAL_PRECISION + m) as real <= owed
    ensures q <= pool
  {
  }

  lemma RawsPaid(d: Side, stakes: Stakes, b: Address, r: Side)
    requires SideOk(d, stakes) && b in stakes && r.perUnit == d.perUnit && r.snaps == d.snaps[b := d.perUnit]
    ensures Raws(r, stakes) == Raws(d, stakes)[b := 0.0] && Raw(r, stakes, b) == 0
  {
    hide Earned;
    EarnedFacts(stakes[b], d.perUnit, 0);
  }

  lemma RawsNonNegative(d: Side, stakes: Stakes)
    requires SideOk(d, stakes)
    ensures forall b | b in stakes :: Raw(d, stakes, b) >= 0
    ensures forall b | b in stakes :: Raws(d, stakes)[b] <= Total(Raws(d, stakes))
  {
    hide Total, Earned;
    forall b | b in stakes ensures Raw(d, stakes, b) >= 0 {
      EarnedFacts(stakes[b], d.perUnit, d.snaps[b]);
    }
    TotalNonNegative(Raws(d, stakes));
  }

  /** Giving trove `b` another stake without paying it first takes the difference out of the slack. */
  lemma RestakeSlack(d: Side, stakes: Stakes, b: Address, stake: nat)
    requires SideOk(d, stakes) && b in stakes
    ensures SideOk(d, stakes[b := stake])
    ensures Slack(d, stakes[b := stake]) == Slack(d, stakes) - Earned(stake - stakes[b], d.perUnit, d.snaps[b]) as real
  {
    hide Total, Earned;
    var later := stakes[b := stake];
    EarnedFacts(stakes[b], d.perUnit, d.snaps[b]);
    assert Raws(d, later) == Raws(d, stakes)[b := Raw(d, later, b) as real];
    TotalUpdate(Raws(d, stakes), b, Raw(d, later, b) as real);
  }

  lemma EnterSlack(d: Side, stakes: Stakes, b: Address, stake: nat)
    requires SideOk(d, stakes) && b !in stakes
    ensures var r := d.(snaps := d.snaps[b := d.perUnit]);
            SideOk(r, stakes[b := stake]) && Slack(r, stakes[b := stake]) == Slack(d, stakes)
  {
    hide Total, Earned;
    var r := d.(snaps := d.snaps[b := d.perUnit]);
    EarnedFacts(stake, d.perUnit, 0);
    assert Raws(r, stakes[b := stake]) == Raws(d, stakes)[b := 0.0];
    TotalUpdate(Raws(d, stakes), b, 0.0);
  }

  /** Whatever was owed to a trove that leaves unpaid stays in the pool as slack. */
  lemma LeaveSlack(d: Side, stakes: Stakes, b: Address)
    requires SideOk(d, stakes) && b in stakes
    ensures var r := d.(snaps := d.snaps - {b});
            SideOk(r, stakes - {b}) && Slack(r, stakes - {b}) == Slack(d, stakes) + Raw(d, stakes, b) as real
  {
    hide Total, Earned;
    var r := d.(snaps := d.snaps - {b});
    assert Raws(r, stakes - {b}) == Raws(d, stakes) - {b};
    TotalSplit(Raws(d, stakes), b);
  }

  // ----- where the debt side depends on the collateral side

  /** However trove `b` is re-staked, the pool covers what is owed. */
  ghost predicate CoversAnyStake(d: Side, stakes: Stakes, b: Address)
    requires SideOk(d, stakes) && b in stakes
  {
    forall stake :: RestakedSlack(d, stakes, b, stake) >= 0.0
  }

  ghost function RestakedSlack(d: Side, stakes: Stakes, b: Address, stake: nat): real
    requires SideOk(d, stakes) && b in stakes
  {
    Slack(d, stakes[b := stake])
  }

  /** Re-staking without payment keeps a covered side covered, for every new stake, exactly when nothing is pending. */
  lemma UnpaidRestake(d: Side, stakes: Stakes, b: Address)
    requires SideOk(d, stakes) && b in stakes && Slack(d, stakes) >= 0.0
    ensures CoversAnyStake(d, stakes, b) <==> d.snaps[b] == d.perUnit
  {
    hide Total, Slack, Earned;
    if d.snaps[b] == d.perUnit {
      forall stake ensures RestakedSlack(d, stakes, b, stake) >= 0.0 {
        RestakeSettled(d, stakes, b, stake);
      }
    } else {
      var excess: nat := Slack(d, stakes).Floor + 1;
      var stake := stakes[b] + excess;
      RestakeSlack(d, stakes, b, stake);
      EarnedAtLeast(excess, d.perUnit, d.snaps[b]);
      assert RestakedSlack(d, stakes, b, stake) < 0.0;
    }
  }

  lemma EarnedAtLeast(stake: nat, perUnit: nat, snap: nat)
    requires snap < perUnit
    ensures Earned(stake, perUnit, snap) >= stake
  {
    Monotone(1, perUnit - snap, stake);
  }

  /** A redistribution of `amount` moves the per-unit sum of this side. */
  predicate Moves(d: Side, amount: nat, totalStakes: nat) {
    amount * DECIMAL_PRECISION + d.error >= totalStakes
  }

  lemma SpreadFields(d: Side, amount: nat, totalStakes: nat)
    requires totalStakes > 0
    ensures Spread(d, amount, totalStakes).snaps == d.snaps && Spread(d, amount, totalStakes).pool == d.pool + amount
  {
  }

  lemma SpreadMoves(d: Side, amount: nat, totalStakes: nat)
    requires totalStakes > 0
    ensures Spread(d, amount, totalStakes).perUnit > d.perUnit <==> Moves(d, amount, totalStakes)
    ensures Spread(d, amount, totalStakes).perUnit >= d.perUnit
  {
    FloorMoves(amount * DECIMAL_PRECISION + d.error, totalStakes);
  }

  lemma FloorMoves(x: nat, y: nat)
    requires y > 0
    ensures x / y > 0 <==> x >= y
  {
    DivBounds(x, y);
    if x / y > 0 {
      Monotone(1, x / y, y);
    }
  }

  // ----- the contract

  class RewardsBook {
    var stakes: Stakes
    var totalStakes: nat
    var coll: Side
    var debt: Side
    ghost var payments: nat   // rewards paid out so far
    ghost var stranded: nat   // collateral that came without debt and was not spread

    ghost predicate Shape()
      reads this
    {
      SideOk(coll, stakes) && SideOk(debt, stakes) && totalStakes as real == Total(StakeTable(stakes))
    }

    /** The default pool covers all pending collateral; the excess is truncated payments and stranded amounts. */
    ghost predicate Valid()
      reads this
    {
      Shape() && 0.0 <= Slack(coll, stakes) <= (DECIMAL_PRECISION * (payments + stranded)) as real
    }

    /** No trove is behind on debt without being behind on collateral. */
    ghost predicate Lockstep()
      reads this
      requires Shape()
    {
      forall b | b in stakes :: coll.snaps[b] == coll.perUnit ==> debt.snaps[b] == debt.perUnit
    }

    /** Some trove has nothing pending on the collateral side. */
    ghost predicate HasCurrent()
      reads this
      requires Shape()
    {
      exists b :: b in stakes && coll.snaps[b] == coll.perUnit
    }

    ghost predicate DebtCovered()
      reads this
    {
      Shape() && Lockstep() && 0.0 <= Slack(debt, stakes) <= (DECIMAL_PRECISION * payments) as real
    }

    constructor ()
      ensures Valid() && DebtCovered() && stakes == map[] && totalStakes == 0 && coll == debt == Side(0, 0, 0, map[])
    {
      stakes, totalStakes := map[], 0;
      coll, debt := Side(0, 0, 0, map[]), Side(0, 0, 0, map[]);
      payments, stranded := 0, 0;
      new;
      assert Raws(coll, stakes) == map[] && Raws(debt, stakes) == map[] && StakeTable(stakes) == map[];
    }

    method Open(b: Address, stake: nat) returns (ok: bool)
      requires Valid()
      modifies this
      ensures Valid() && (old(DebtCovered()) ==> DebtCovered())
      ensures ok <==> b !in old(stakes)
      ensures if ok then stakes == old(stakes)[b := stake] && totalStakes == old(totalStakes) + stake
                         && coll == old(coll).(snaps := old(coll).snaps[b := old(coll).perUnit])
                         && debt == old(debt).(snaps := old(debt).snaps[b := old(debt).perUnit])
              else unchanged(this)
    {
      hide Slack, Total, StakeTable;
      if b in stakes {
        return false;
      }
      EnterSlack(coll, stakes, b, stake);
      EnterSlack(debt, stakes, b, stake);
      StakesUpdate(stakes, b, stake);
      coll := coll.(snaps := coll.snaps[b := coll.perUnit]);
      debt := debt.(snaps := debt.snaps[b := debt.perUnit]);
      stakes := stakes[b := stake];
      totalStakes := totalStakes + stake;
      return true;
    }

    /** Pays a trove both of its rewards; reverts if the default pool cannot cover the debt. */
    method PayBoth(b: Address) returns (ok: bool, collReward: nat, debtReward: nat)
      requires Valid() && b in stakes
      modifies this
      ensures Valid() && (old(DebtCovered()) ==> ok && DebtCovered())
      ensures stakes == old(stakes) && totalStakes == old(totalStakes) && stranded == old(stranded)
      ensures ok <==> Pending(old(debt), stakes, b) <= old(debt.pool)
      ensures ok ==> collReward == Pending(old(coll), stakes, b) <= old(coll.pool) && coll == Pay(old(coll), stakes, b)
      ensures ok ==> debtReward == Pending(old(debt), stakes, b) <= old(debt.pool) && debt == Pay(old(debt), stakes, b)
      ensures ok ==> coll.pool == old(coll.pool) - collReward && debt.pool == old(debt.pool) - debtReward
                     && RewardIs(stakes[b], old(coll.perUnit), old(coll).snaps[b], collReward)
                     && RewardIs(stakes[b], old(debt.perUnit), old(debt).snaps[b], debtReward)
      ensures ok ==> payments == old(payments) + 1 && coll.snaps[b] == coll.perUnit && debt.snaps[b] == debt.perUnit
      ensures !ok ==> coll == old(coll) && debt == old(debt) && payments == old(payments)
    {
      hide Slack, Total, Earned, Raw, Pending, RewardIs, StakeTable;
      Paid(coll, stakes, b);
      Paid(debt, stakes, b);
      collReward, debtReward := Pending(coll, stakes, b), Pending(debt, stakes, b);
      if debtReward > debt.pool {
        return false, 0, 0;
      }
      PendingIs(coll, stakes, b, collReward);
      PendingIs(debt, stakes, b, debtReward);
      coll, debt, payments := Pay(coll, stakes, b), Pay(debt, stakes, b), payments + 1;
      return true, collReward, debtReward;
    }

    /** Applies pending rewards if the collateral snapshot is behind; no collateral payment ever underflows. */
    method ApplyPendingRewards(b: Address) returns (ok: bool, collReward: nat, debtReward: nat)
      requires Valid() && b in stakes
      modifies this
      ensures Valid() && (old(DebtCovered()) ==> ok && DebtCovered())
      ensures stakes == old(stakes) && totalStakes == old(totalStakes)
      ensures ok ==> collReward == Pending(old(coll), stakes, b) && coll.pool == old(coll.pool) - collReward
      ensures ok ==> coll.snaps[b] == coll.perUnit && (old(DebtCovered()) ==> debt.snaps[b] == debt.perUnit)
      ensures old(coll.snaps[b] == coll.perUnit) ==> ok && coll == old(coll) && debt == old(debt)
      ensures ok && old(DebtCovered()) ==> debtReward == Pending(old(debt), stakes, b)
      ensures ok ==> debt.pool == old(debt.pool) - debtReward
      ensures !ok ==> coll == old(coll) && debt == old(debt)
    {
      hide Slack, Total, Raw, Pending;
      if coll.snaps[b] < coll.perUnit {
        ok, collReward, debtReward := PayBoth(b);
      } else {
        NothingPending(coll, stakes, b);
        if debt.snaps[b] == debt.perUnit { NothingPending(debt, stakes, b); }
        return true, 0, 0;
      }
    }

    /** A borrower operation: pending rewards first, then the stake that goes with the new collateral. */
    method Adjust(b: Address, stake: nat) returns (ok: bool)
      requires Valid()
      modifies this
      ensures Valid() && (old(DebtCovered()) ==> DebtCovered())
      ensures ok ==> b in old(stakes) && stakes == old(stakes)[b := stake]
                     && totalStakes == old(totalStakes) - old(stakes)[b] + stake
      ensures b in old(stakes) && old(coll.snaps[b] == coll.perUnit) ==> ok && coll == old(coll) && debt == old(debt)
      ensures old(DebtCovered()) ==> (ok <==> b in old(stakes))
      ensures !ok ==> stakes == old(stakes) && coll == old(coll) && debt == old(debt)
    {
      hide Slack, Total;
      if b !in stakes {
        return false;
      }
      var collReward, debtReward;
      ok, collReward, debtReward := ApplyPendingRewards(b);
      if ok {
        UpdateStakeAndTotalStakes(b, stake);
      }
    }

    method UpdateStakeAndTotalStakes(b: Address, stake: nat)
      requires Valid() && b in stakes && coll.snaps[b] == coll.perUnit
      modifies this
      ensures Valid() && stakes == old(stakes)[b := stake] && totalStakes == old(totalStakes) - old(stakes)[b] + stake
      ensures old(DebtCovered()) && old(debt.snaps[b] == debt.perUnit) ==> DebtCovered()
      ensures coll == old(coll) && debt == old(debt)
    {
      hide Slack, Total, StakeTable;
      RestakeSettled(coll, stakes, b, stake);
      if debt.snaps[b] == debt.perUnit { RestakeSettled(debt, stakes, b, stake); }
      StakesUpdate(stakes, b, stake);
      totalStakes := totalStakes - stakes[b] + stake;
      stakes := stakes[b := stake];
    }

    /** Takes the trove and its stake out. */
    method Remove(b: Address)
      requires Valid() && b in stakes && coll.snaps[b] == coll.perUnit
      modifies this
      ensures Valid() && stakes == old(stakes) - {b}
      ensures old(DebtCovered()) && old(debt.snaps[b] == debt.perUnit) ==> DebtCovered()
      ensures totalStakes == old(totalStakes) - old(stakes)[b]
      ensures coll == old(coll).(snaps := old(coll).snaps - {b}) && debt == old(debt).(snaps := old(debt).snaps - {b})
    {
      hide Slack, Total, StakeTable, Raw;
      LeaveSlack(coll, stakes, b);
      LeaveSlack(debt, stakes, b);
      NothingPending(coll, stakes, b);
      if debt.snaps[b] == debt.perUnit { NothingPending(debt, stakes, b); }
      StakesRemove(stakes, b);
      totalStakes := totalStakes - stakes[b];
      stakes := stakes - {b};
      coll := coll.(snaps := coll.snaps - {b});
      debt := debt.(snaps := debt.snaps - {b});
    }

    /** The owner closes: rewards are applied, then the trove leaves. */
    method Close(b: Address) returns (ok: bool)
      requires Valid()
      modifies this
      ensures Valid() && (old(DebtCovered()) ==> DebtCovered())
      ensures ok ==> b in old(stakes) && stakes == old(stakes) - {b}
      ensures ok ==> coll.pool == old(coll.pool) - Pending(old(coll), old(stakes), b)
      ensures ok && old(DebtCovered()) ==> debt.pool == old(debt.pool) - Pending(old(debt), old(stakes), b)
      ensures old(DebtCovered()) ==> (ok <==> b in old(stakes))
      ensures !ok ==> stakes == old(stakes) && coll == old(coll) && debt == old(debt)
    {
      hide Slack, Total, Pending;
      if b !in stakes {
        return false;
      }
      var collReward, debtReward;
      ok, collReward, debtReward := ApplyPendingRewards(b);
      if ok {
        Remove(b);
      }
    }

    /** A liquidated trove is paid whatever is pending, even when only debt is, and leaves. */
    method LiquidateTrove(b: Address) returns (ok: bool)
      requires Valid()
      modifies this
      ensures Valid() && (old(DebtCovered()) ==> DebtCovered())
      ensures ok ==> b in old(stakes) && stakes == old(stakes) - {b}
      ensures ok <==> b in old(stakes) && Pending(old(debt), old(stakes), b) <= old(debt.pool)
      ensures ok ==> totalStakes == old(totalStakes) - old(stakes)[b]
                     && 0 <= Pending(old(coll), old(stakes), b) <= old(coll.pool)
                     && coll == Leave(Pay(old(coll), old(stakes), b), b)
                     && 0 <= Pending(old(debt), old(stakes), b) && debt == Leave(Pay(old(debt), old(stakes), b), b)
      ensures old(DebtCovered()) ==> (ok <==> b in old(stakes))
      ensures !ok ==> stakes == old(stakes) && coll == old(coll) && debt == old(debt)
    {
      hide Slack, Total, Pending, Pay;
      if b !in stakes {
        return false;
      }
      var collReward, debtReward;
      ok, collReward, debtReward := PayBoth(b);
      if ok {
        Remove(b);
      }
    }

    /**
     Redistributes; reverts when there are no stakes. The debt side stays covered exactly when the
     debt sum does not move, the collateral sum moves with it, or no trove has current snapshots.
     */
    method RedistributeDebtAndColl(debtAmount: nat, collAmount: nat) returns (ok: bool)
      requires Valid()
      modifies this
      ensures Valid() && stakes == old(stakes) && totalStakes == old(totalStakes)
      ensures ok <==> debtAmount == 0 || totalStakes > 0
      ensures ok ==> coll.pool == old(coll.pool) + collAmount && debt.pool == old(debt.pool) + debtAmount
      ensures ok && debtAmount > 0 ==> coll == Spread(old(coll), collAmount, totalStakes) && debt == Spread(old(debt), debtAmount, totalStakes)
      ensures ok && debtAmount > 0 ==>
                coll.error < totalStakes && debt.error < totalStakes
                && Quotients(old(coll.perUnit), old(coll.error), collAmount, totalStakes, coll.perUnit, coll.error)
                && Quotients(old(debt.perUnit), old(debt.error), debtAmount, totalStakes, debt.perUnit, debt.error)
      ensures ok && old(DebtCovered()) ==>
                (DebtCovered() <==> debtAmount == 0 || !old(HasCurrent())
                                    || Moves(old(coll), collAmount, totalStakes) || !Moves(old(debt), debtAmount, totalStakes))
    {
      hide Slack, Total, Raw, Spread, Moves, Quotients;
      if debtAmount == 0 {
        PoolOnly(coll, stakes, collAmount);
        coll := coll.(pool := coll.pool + collAmount);
        stranded := stranded + collAmount;
        return true;
      }
      if totalStakes == 0 {
        return false;
      }
      SpreadKeepsSlack(coll, stakes, collAmount, totalStakes);
      SpreadKeepsSlack(debt, stakes, debtAmount, totalStakes);
      SpreadMoves(coll, collAmount, totalStakes);
      SpreadMoves(debt, debtAmount, totalStakes);
      SpreadExact(coll, collAmount, totalStakes);
      SpreadExact(debt, debtAmount, totalStakes);
      SpreadFields(coll, collAmount, totalStakes);
      SpreadFields(debt, debtAmount, totalStakes);
      coll, debt := Spread(coll, collAmount, totalStakes), Spread(debt, debtAmount, totalStakes);
      return true;
    }
  }

  lemma PoolOnly(d: Side, stakes: Stakes, amount: nat)
    requires SideOk(d, stakes)
    ensures var r := d.(pool := d.pool + amount);
            SideOk(r, stakes) && Slack(r, stakes) == Slack(d, stakes) + (DECIMAL_PRECISION * amount) as real
  {
    hide Total, Earned;
    assert Raws(d.(pool := d.pool + amount), stakes) == Raws(d, stakes);
  }

  lemma StakesRemove(stakes: Stakes, b: Address)
    requires b in stakes
    ensures Total(StakeTable(stakes - {b})) == Total(StakeTable(stakes)) - stakes[b] as real
    ensures stakes[b] as real <= Total(StakeTable(stakes))
  {
    hide Total;
    assert StakeTable(stakes - {b}) == StakeTable(stakes) - {b};
    TotalSplit(StakeTable(stakes), b);
    TotalNonNegative(StakeTable(stakes));
    assert StakeTable(stakes)[b] <= Total(StakeTable(stakes));
  }

  lemma StakesUpdate(stakes: Stakes, b: Address, stake: nat)
    ensures Total(StakeTable(stakes[b := stake])) == Total(StakeTable(stakes)) + stake as real - (if b in stakes then stakes[b] as real else 0.0)
    ensures b in stakes ==> stakes[b] as real <= Total(StakeTable(stakes))
  {
    hide Total;
    assert StakeTable(stakes[b := stake]) == StakeTable(stakes)[b := stake as real];
    TotalUpdate(StakeTable(stakes), b, stake as real);
    TotalNonNegative(StakeTable(stakes));
    if b in stakes {
      assert StakeTable(stakes)[b] <= Total(StakeTable(stakes));
    }
  }

  lemma RestakeSettled(d: Side, stakes: Stakes, b: Address, stake: nat)
    requires SideOk(d, stakes) && b in stakes && d.snaps[b] == d.perUnit
    ensures SideOk(d, stakes[b := stake]) && Slack(d, stakes[b := stake]) == Slack(d, stakes)
  {
    RestakeSlack(d, stakes, b, stake);
  }
  // ----- a run in which the debt side is not covered

  const PRICE: nat := 2000 * DECIMAL_PRECISION
  const UNPAID: nat := 1800

  /** A trove of 2000 LUSD with collateral worth 109%, and a stability pool that falls short of its debt by 1800 wei. */
  const SHORT_OF_DEBT := Liquidations.Trove(2000 * DECIMAL_PRECISION, 1090000000000000000, RATE_PRECISION)

  /** The liquidation of that trove redistributes the 1800 wei of debt, and no collateral: its value is below one wei. */
  lemma DebtWithoutCollateral()
    ensures var m, t := Liquidations.Market(PRICE, DECIMAL_PRECISION), SHORT_OF_DEBT;
            Liquidations.Liquidatable(t, m)
            && var v := Liquidations.CappedVals(t, t.coll - Liquidations.GasCompensation(t), 2000 * DECIMAL_PRECISION - UNPAID, m);
               v.debtToRedistribute == UNPAID && v.collToRedistribute == 0
  {
  }

  /** Two troves of 50 each are left after a third one, with nothing pending, is liquidated. */
  method TwoTrovesLeft() returns (book: RewardsBook)
    ensures fresh(book) && book.Valid() && book.stakes == map[1 := 50 * DECIMAL_PRECISION, 2 := 50 * DECIMAL_PRECISION]
    ensures book.totalStakes == 100 * DECIMAL_PRECISION && book.coll == book.debt == Side(0, 0, 0, map[1 := 0, 2 := 0])
  {
    hide RewardsBook.Valid, RewardsBook.DebtCovered, Pending, Pay;
    book := new RewardsBook();
    var ok := book.Open(1, 50 * DECIMAL_PRECISION);
    assert book.coll == book.debt == Side(0, 0, 0, map[1 := 0]);
    ok := book.Open(2, 50 * DECIMAL_PRECISION);
    assert book.coll == book.debt == Side(0, 0, 0, map[1 := 0, 2 := 0]);
    ok := book.Open(3, 1090000000000000000);
    NothingPending(book.coll, book.stakes, 3);
    PayNothing(book.coll, book.stakes, 3);
    ok := book.LiquidateTrove(3);
    assert book.coll.snaps == map[1 := 0, 2 := 0];
    assert book.stakes == map[1 := 50 * DECIMAL_PRECISION, 2 := 50 * DECIMAL_PRECISION];
  }

  /**
   The debt of that liquidation goes to two troves, and the first is topped up. Rewards are applied
   only to a trove whose collateral snapshot is behind, so the top-up leaves the debt unapplied and
   makes the larger stake owe debt the default pool never got: liquidating the first trove reverts.
   */
  method UnappliedDebtCanExceedPool() returns (book: RewardsBook, reverts: bool)
    ensures fresh(book) && book.Valid() && 1 in book.stakes && 1 in book.debt.snaps
    ensures Pending(book.debt, book.stakes, 1) == 3600 && book.debt.pool == UNPAID
    ensures reverts
  {
    hide RewardsBook.Valid, RewardsBook.DebtCovered, Pending, Pay, Spread, Moves;
    book := TwoTrovesLeft();
    SpreadUnpaid(book.coll, book.debt);
    var ok := book.RedistributeDebtAndColl(UNPAID, 0);
    ok := book.Adjust(1, 200 * DECIMAL_PRECISION);
    UnpaidPending(book.debt, book.stakes);
    ok := book.LiquidateTrove(1);
    reverts := !ok;
  }

  lemma PayNothing(d: Side, stakes: Stakes, b: Address)
    requires b in stakes && b in d.snaps && Pending(d, stakes, b) == 0
    ensures Pay(d, stakes, b) == d.(snaps := d.snaps[b := d.perUnit])
  {
  }

  lemma SpreadUnpaid(coll: Side, debt: Side)
    requires coll.perUnit == coll.error == coll.pool == 0 && debt.perUnit == debt.error == debt.pool == 0
    ensures Spread(coll, 0, 100 * DECIMAL_PRECISION) == coll
    ensures Spread(debt, UNPAID, 100 * DECIMAL_PRECISION) == debt.(perUnit := 18, pool := UNPAID)
  {
  }

  lemma UnpaidPending(debt: Side, stakes: Stakes)
    requires 1 in stakes && stakes[1] == 200 * DECIMAL_PRECISION && 1 in debt.snaps && debt.snaps[1] == 0 && debt.perUnit == 18
    ensures Pending(debt, stakes, 1) == 3600
  {
  }
}
