/**
 The stability pool in exact arithmetic. A liquidation or a fee changes only a running product
 `P`, a scale counter and one running sum per scale; a depositor's compounded deposit and
 collateral gain are read off from snapshots. The specification is the ledger that loops over
 every depositor, carried along as ghost state.
 */
module StabilityPool {
  import opened Accounts
  import opened Arithmetic

  /** The pool is never drawn below this amount by withdrawals or offsets. */
  const MIN_LUSD_IN_SP := 1.0
  const SCALE_FACTOR := 1000000000.0
  const BILLIONTH := 0.000000001

  datatype Deposit = Deposit(initial: real, sSnap: real, pSnap: real, scaleSnap: nat)

  // ----- the ledger that loops over all depositors

  datatype Account = Account(deposit: real, gain: real)

  /** `dust` is what settled accounts were too small to be paid. */
  datatype Ledger = Ledger(accounts: map<Address, Account>, dust: Account, total: real, coll: real)

  /** The part of an amount that falls on an account. */
  function Portion(a: Account, amount: real, total: real): real
    requires total > 0.0
  {
    amount * (a.deposit / total)
  }

  function Absorb(a: Account, debt: real, coll: real, total: real): Account
    requires total > 0.0
  {
    Account(a.deposit - Portion(a, debt, total), a.gain + Portion(a, coll, total))
  }

  /** Every account takes the part of the debt and of the collateral that its deposit is of the total. */
  function NaiveOffset(l: Ledger, debt: real, coll: real): Ledger
    requires l.total > 0.0
  {
    Ledger(map x | x in l.accounts :: Absorb(l.accounts[x], debt, coll, l.total),
           Absorb(l.dust, debt, coll, l.total), l.total - debt, l.coll + coll)
  }

  /** Fees are a negative debt without collateral. */
  function NaiveFees(l: Ledger, lusd: real): Ledger
    requires l.total > 0.0
  {
    NaiveOffset(l, -lusd, 0.0)
  }

  function AccountOf(l: Ledger, x: Address): Account {
    if x in l.accounts then l.accounts[x] else Account(0.0, 0.0)
  }

  /** Pays `paid` of the gain, recognises `kept` of the deposit, and sets the deposit to `kept + change`. */
  function NaiveSettle(l: Ledger, x: Address, kept: real, paid: real, change: real): Ledger {
    var a := AccountOf(l, x);
    var accounts := if kept + change == 0.0 then l.accounts - {x} else l.accounts[x := Account(kept + change, 0.0)];
    Ledger(accounts, Account(l.dust.deposit + a.deposit - kept, l.dust.gain + a.gain - paid), l.total + change, l.coll - paid)
  }

  ghost function Deposits(l: Ledger): map<Address, real> { map x | x in l.accounts :: l.accounts[x].deposit }
  ghost function Gains(l: Ledger): map<Address, real> { map x | x in l.accounts :: l.accounts[x].gain }

  /** The accounts and the dust make up the whole pool. */
  ghost predicate Conserved(l: Ledger) {
    l.total == Total(Deposits(l)) + l.dust.deposit && l.coll == Total(Gains(l)) + l.dust.gain
    && l.dust.deposit >= 0.0 && l.dust.gain >= 0.0
    && forall x | x in l.accounts :: l.accounts[x].deposit > 0.0 && l.accounts[x].gain >= 0.0
  }

  // ----- the O(1) state

  function SumAt(sums: map<nat, real>, k: nat): real {
    if k in sums then sums[k] else 0.0
  }

  /** What one unit of `initial / pSnap` has earned: within its own scale, and within the next. */
  function GainPerUnit(sums: map<nat, real>, d: Deposit): real {
    SumAt(sums, d.scaleSnap) - d.sSnap + SumAt(sums, d.scaleSnap + 1) / SCALE_FACTOR
  }

  function CollateralGain(sums: map<nat, real>, d: Deposit): real
    requires d.pSnap != 0.0
  {
    d.initial * GainPerUnit(sums, d) / d.pSnap
  }

  /** The deposit the snapshots stand for before tiny deposits are rounded to nothing. */
  function Scaled(p: real, scale: nat, d: Deposit): real
    requires d.pSnap != 0.0
  {
    if scale == d.scaleSnap then d.initial * p / d.pSnap
    else if scale == d.scaleSnap + 1 then d.initial * p / d.pSnap / SCALE_FACTOR
    else 0.0
  }

  function CompoundedDeposit(p: real, scale: nat, d: Deposit): real
    requires d.pSnap != 0.0
  {
    if Scaled(p, scale, d) < d.initial / 1000000000.0 then 0.0 else Scaled(p, scale, d)
  }

  function ScalePow(n: nat): real {
    if n == 0 then 1.0 else SCALE_FACTOR * ScalePow(n - 1)
  }

  /** The snapshots give exactly this deposit, at any number of scale changes. */
  ghost predicate DepositIs(p: real, scale: nat, d: Deposit, deposit: real)
    requires d.pSnap > 0.0 && d.scaleSnap <= scale
  {
    Times(deposit * ScalePow(scale - d.scaleSnap), d.initial / d.pSnap, p)
  }

  /** The snapshots give this gain exactly until the second scale change, and never too much after it. */
  ghost predicate GainIs(scale: nat, sums: map<nat, real>, d: Deposit, gain: real)
    requires d.pSnap > 0.0
  {
    gain >= d.initial / d.pSnap * GainPerUnit(sums, d) >= 0.0
    && (scale <= d.scaleSnap + 1 ==> Times(gain, d.initial / d.pSnap, GainPerUnit(sums, d)))
  }

  /** The snapshots `d` tell the truth about account `a`. */
  ghost predicate Tracks(p: real, scale: nat, sums: map<nat, real>, d: Deposit, a: Account) {
    d.initial > 0.0 && d.pSnap > 0.0 && d.scaleSnap <= scale
    && DepositIs(p, scale, d, a.deposit) && GainIs(scale, sums, d, a.gain)
  }

  /** The deposit of this account is no longer paid out: two scale changes, or below a billionth. */
  predicate Negligible(scale: nat, d: Deposit, a: Account) {
    scale >= d.scaleSnap + 2 || a.deposit < d.initial / 1000000000.0
  }

  /** What is read off from the snapshots is the ledger's account, except that negligible deposits read as zero. */
  lemma ReadOff(p: real, scale: nat, sums: map<nat, real>, d: Deposit, a: Account)
    requires Tracks(p, scale, sums, d, a) && p > 0.0
    ensures a.deposit > 0.0
    ensures CompoundedDeposit(p, scale, d) == if Negligible(scale, d, a) then 0.0 else a.deposit
    ensures 0.0 <= CollateralGain(sums, d) <= a.gain
    ensures scale < d.scaleSnap + 2 ==> CollateralGain(sums, d) == a.gain
  {
    hide DepositIs, GainPerUnit, Scaled, CollateralGain, GainIs;
    DepositPositive(p, scale, d, a.deposit);
    ReadDeposit(p, scale, d, a.deposit);
    ReadGain(scale, sums, d, a.gain);
  }

  lemma ReadGain(scale: nat, sums: map<nat, real>, d: Deposit, gain: real)
    requires d.pSnap > 0.0 && GainIs(scale, sums, d, gain)
    ensures 0.0 <= CollateralGain(sums, d) <= gain
    ensures scale < d.scaleSnap + 2 ==> CollateralGain(sums, d) == gain
  {
    Reassociate(d.initial, GainPerUnit(sums, d), d.pSnap);
    hide GainPerUnit;
  }

  lemma Reassociate(x: real, y: real, z: real)
    requires z > 0.0
    ensures x * y / z == x / z * y
  {
  }

  lemma DepositPositive(p: real, scale: nat, d: Deposit, deposit: real)
    requires p > 0.0 && d.initial > 0.0 && d.pSnap > 0.0 && d.scaleSnap <= scale && DepositIs(p, scale, d, deposit)
    ensures deposit > 0.0
  {
    ScalePowPositive(scale - d.scaleSnap);
    var w, pow := d.initial / d.pSnap, ScalePow(scale - d.scaleSnap);
    assert w > 0.0 && deposit * pow == w * p > 0.0;
  }

  lemma ReadDeposit(p: real, scale: nat, d: Deposit, deposit: real)
    requires p > 0.0 && d.pSnap > 0.0 && d.scaleSnap <= scale && DepositIs(p, scale, d, deposit)
    ensures Scaled(p, scale, d) == if scale <= d.scaleSnap + 1 then deposit else 0.0
  {
    Reassociate(d.initial, p, d.pSnap);
    assert ScalePow(1) == SCALE_FACTOR * ScalePow(0);
  }

  /** A deposit that reads as zero has really become tiny: against its start, or against the product. */
  lemma ReadsZero(p: real, scale: nat, d: Deposit, deposit: real)
    requires p > 0.0 && d.initial > 0.0 && d.pSnap > 0.0 && d.scaleSnap <= scale && DepositIs(p, scale, d, deposit)
    ensures CompoundedDeposit(p, scale, d) == deposit || CompoundedDeposit(p, scale, d) == 0.0
    ensures deposit < d.initial * BILLIONTH ==> CompoundedDeposit(p, scale, d) == 0.0
    ensures CompoundedDeposit(p, scale, d) == 0.0 && d.pSnap >= BILLIONTH ==>
              deposit < d.initial * BILLIONTH || deposit <= d.initial * p * BILLIONTH
  {
    DepositPositive(p, scale, d, deposit);
    ReadDeposit(p, scale, d, deposit);
    if scale >= d.scaleSnap + 2 {
      var pow, w := ScalePow(scale - d.scaleSnap), d.initial / d.pSnap;
      ScalePowLarge(scale - d.scaleSnap);
      assert deposit * pow == w * p && w * d.pSnap == d.initial;
      hide *;
      if d.pSnap >= BILLIONTH {
        ShareSmall(w, d.pSnap, d.initial, p, deposit, pow);
      }
    }
  }

  lemma ShareSmall(w: real, snap: real, initial: real, p: real, deposit: real, pow: real)
    requires snap >= BILLIONTH && w * snap == initial > 0.0 && deposit * pow == w * p && p > 0.0 && deposit > 0.0
    requires pow >= SCALE_FACTOR * SCALE_FACTOR
    ensures deposit <= initial * p * BILLIONTH
  {
    PositiveFactor(snap, w, initial);
    LessEqualTimes(BILLIONTH, snap, w);
    LessEqualTimes(SCALE_FACTOR * SCALE_FACTOR, pow, deposit);
    LessEqualTimes(w, initial * SCALE_FACTOR, p);
    assert initial * SCALE_FACTOR * p == initial * p * SCALE_FACTOR;
  }

  lemma ScalePowLarge(n: nat)
    requires n >= 2
    ensures ScalePow(n) >= SCALE_FACTOR * SCALE_FACTOR
  {
    ScalePowPositive(n - 2);
    assert ScalePow(n) == SCALE_FACTOR * ScalePow(n - 1) && ScalePow(n - 1) == SCALE_FACTOR * ScalePow(n - 2);
  }

  lemma {:induction false} ScalePowPositive(n: nat)
    ensures ScalePow(n) >= 1.0
  {
    if n > 0 { ScalePowPositive(n - 1); }
  }

  // ----- one account through one step

  /** Adds collateral to the running sum of the current scale, at the product before the loss. */
  function AddToSum(sums: map<nat, real>, scale: nat, perUnit: real, p: real): map<nat, real> {
    sums[scale := SumAt(sums, scale) + perUnit * p]
  }

  /** Multiplies the product by a factor, moving to the next scale or the one after when it gets small. */
  function ScaleProduct(p: real, scale: nat, factor: real): (r: (real, nat))
    ensures p > 0.0 && factor > 0.0 ==> r.0 > 0.0
    ensures scale <= r.1 <= scale + 2
  {
    var q := p * factor;
    if q < 1.0 / SCALE_FACTOR then
      if q * SCALE_FACTOR < 1.0 / SCALE_FACTOR then (q * SCALE_FACTOR * SCALE_FACTOR, scale + 2)
      else (q * SCALE_FACTOR, scale + 1)
    else (q, scale)
  }

  /** The scale moves on by one exactly below a billionth, and by two exactly below its square. */
  lemma ScaleMoves(p: real, scale: nat, factor: real, q: real)
    requires q == p * factor
    ensures var r := ScaleProduct(p, scale, factor);
            (q >= BILLIONTH ==> r == (q, scale))
            && (BILLIONTH * BILLIONTH <= q < BILLIONTH ==> r.1 == scale + 1 && r.0 * BILLIONTH == q)
            && (q < BILLIONTH * BILLIONTH ==> r.1 == scale + 2 && r.0 * BILLIONTH * BILLIONTH == q)
            && (r.0 >= BILLIONTH <==> q >= BILLIONTH * BILLIONTH * BILLIONTH)
  {
  }

  lemma MovesOn(p: real, scale: nat, debt: real, total: real, q: real)
    requires total > 0.0 && debt >= 0.0 && MIN_LUSD_IN_SP <= total - debt && q == p * (1.0 - debt / total)
    ensures var r := ScaleProduct(p, scale, LossFactor(debt, total));
            (q >= BILLIONTH ==> r == (q, scale))
            && (BILLIONTH * BILLIONTH <= q < BILLIONTH ==> r.1 == scale + 1 && r.0 * BILLIONTH == q)
            && (q < BILLIONTH * BILLIONTH ==> r.1 == scale + 2 && r.0 * BILLIONTH * BILLIONTH == q)
            && (r.0 >= BILLIONTH <==> q >= BILLIONTH * BILLIONTH * BILLIONTH)
            && (p >= BILLIONTH && total <= 1000000000000000000.0 ==> r.0 >= BILLIONTH)
  {
    ScaleMoves(p, scale, LossFactor(debt, total), q);
    if p >= BILLIONTH && total <= 1000000000000000000.0 { EnoughLeft(p, debt, total, q); }
  }

  /** Two scale changes are enough as long as an offset leaves one LUSD out of 1e18. */
  lemma EnoughLeft(p: real, debt: real, total: real, q: real)
    requires p >= BILLIONTH && MIN_LUSD_IN_SP <= total - debt && debt >= 0.0 && total <= 1000000000000000000.0
    requires q == p * (1.0 - debt / total)
    ensures q >= BILLIONTH * BILLIONTH * BILLIONTH
  {
    var f := 1.0 - debt / total;
    assert f * total == total - debt;
    if f < BILLIONTH * BILLIONTH {
      LessTimes(f, BILLIONTH * BILLIONTH, total);
    }
    LessEqualTimes(BILLIONTH * BILLIONTH, f, p);
  }

  ghost predicate NoLaterSums(sums: map<nat, real>, scale: nat) {
    forall k | k in sums :: k <= scale && sums[k] >= 0.0
  }

  /** The running sum gains exactly what this account's share of the collateral is. */
  lemma GainTracks(p: real, scale: nat, sums: map<nat, real>, d: Deposit, a: Account, perUnit: real, gain: real)
    requires Tracks(p, scale, sums, d, a) && p > 0.0 && perUnit >= 0.0 && NoLaterSums(sums, scale)
    requires Times(gain - a.gain, perUnit, a.deposit)
    ensures GainIs(scale, AddToSum(sums, scale, perUnit, p), d, gain)
  {
    var w, later := d.initial / d.pSnap, AddToSum(sums, scale, perUnit, p);
    DepositPositive(p, scale, d, a.deposit);
    var grown := if scale == d.scaleSnap then perUnit * p
                 else if scale == d.scaleSnap + 1 then perUnit * p / SCALE_FACTOR
                 else 0.0;
    assert GainPerUnit(later, d) == GainPerUnit(sums, d) + grown;
    if scale <= d.scaleSnap + 1 {
      ShareOfSum(p, scale, d, a.deposit, perUnit);
    }
    hide DepositIs, GainPerUnit;
    Grow(gain, a.gain, w, GainPerUnit(sums, d), grown, a.deposit, perUnit);
  }

  lemma Grow(gain: real, gainBefore: real, w: real, unit: real, grown: real, deposit: real, perUnit: real)
    requires w > 0.0 && deposit > 0.0 && perUnit >= 0.0 && w * unit >= 0.0
    requires Times(gain - gainBefore, perUnit, deposit)
    requires deposit * perUnit == w * grown || grown == 0.0
    ensures w * (unit + grown) >= 0.0
    ensures gainBefore >= w * unit ==> gain >= w * (unit + grown)
    ensures Times(gainBefore, w, unit) && deposit * perUnit == w * grown ==> Times(gain, w, unit + grown)
  {
    assert deposit * perUnit >= 0.0;
    assert w * (unit + grown) == w * unit + w * grown;
  }

  lemma ShareOfSum(p: real, scale: nat, d: Deposit, deposit: real, perUnit: real)
    requires d.pSnap > 0.0 && d.scaleSnap <= scale <= d.scaleSnap + 1 && DepositIs(p, scale, d, deposit)
    ensures deposit * perUnit == d.initial / d.pSnap * (if scale == d.scaleSnap then perUnit * p else perUnit * p / SCALE_FACTOR)
  {
    var w := d.initial / d.pSnap;
    assert ScalePow(1) == SCALE_FACTOR * ScalePow(0);
    if scale == d.scaleSnap {
      assert deposit == w * p;
      assert w * p * perUnit == w * (perUnit * p);
    } else {
      assert deposit == w * p / SCALE_FACTOR;
      assert w * p / SCALE_FACTOR * perUnit == w * (perUnit * p / SCALE_FACTOR);
    }
  }

  /** Scaling the product and the deposit by one factor keeps them in step. */
  lemma ByFactor(p: real, q: real, scale: nat, d: Deposit, deposit: real, factor: real, later: real)
    requires d.pSnap > 0.0 && d.scaleSnap <= scale && DepositIs(p, scale, d, deposit)
    requires Times(later, factor, deposit) && Times(q, factor, p)
    ensures DepositIs(q, scale, d, later)
  {
    var w, pow := d.initial / d.pSnap, ScalePow(scale - d.scaleSnap);
    FactorBoth(factor, deposit, pow, w, p);
  }

  lemma FactorBoth(factor: real, x: real, pow: real, w: real, p: real)
    requires x * pow == w * p
    ensures factor * x * pow == w * (factor * p)
  {
    assert factor * x * pow == factor * (x * pow) && w * (factor * p) == factor * (w * p);
  }

  /** A product that is scaled up once reads the same at the next scale. */
  lemma NextScale(q: real, next: real, scale: nat, d: Deposit, deposit: real)
    requires d.pSnap > 0.0 && d.scaleSnap <= scale && DepositIs(q, scale, d, deposit)
    requires next == q * SCALE_FACTOR
    ensures DepositIs(next, scale + 1, d, deposit)
  {
    assert ScalePow(scale + 1 - d.scaleSnap) == SCALE_FACTOR * ScalePow(scale - d.scaleSnap);
  }

  /** The product shrinks or grows exactly as this account's deposit does, across scale changes. */
  lemma ProductTracks(p: real, scale: nat, d: Deposit, deposit: real, factor: real, later: real)
    requires d.pSnap > 0.0 && d.scaleSnap <= scale && DepositIs(p, scale, d, deposit)
    requires Times(later, factor, deposit)
    ensures var r := ScaleProduct(p, scale, factor);
            DepositIs(r.0, r.1, d, later)
  {
    var r, q := ScaleProduct(p, scale, factor), p * factor;
    assert Times(q, factor, p);
    ByFactor(p, q, scale, d, deposit, factor, later);
    hide DepositIs;
    if r.1 == scale {
      assert r.0 == q;
    } else {
      var next := q * SCALE_FACTOR;
      NextScale(q, next, scale, d, later);
      if r.1 == scale + 1 {
        assert r.0 == next;
      } else {
        NextScale(next, r.0, scale + 1, d, later);
      }
    }
  }

  /** An equal gain stays right when the scale moves on: the new scale has earned nothing yet. */
  lemma GainLater(scale: nat, later: nat, sums: map<nat, real>, d: Deposit, gain: real)
    requires d.pSnap > 0.0 && scale <= later && GainIs(scale, sums, d, gain)
    ensures GainIs(later, sums, d, gain)
  {
    hide Times, GainPerUnit;
  }

  // ----- the looping ledger conserves both amounts

  lemma PortionIs(a: Account, amount: real, total: real)
    requires total > 0.0
    ensures Times(Portion(a, amount, total), amount / total, a.deposit)
    ensures a.deposit >= 0.0 && amount >= 0.0 ==> Portion(a, amount, total) >= 0.0
    ensures a.deposit > 0.0 && amount < total ==> Portion(a, amount, total) < a.deposit
    ensures a.deposit == 0.0 ==> Portion(a, amount, total) == 0.0
  {
    var part := a.deposit / total;
    assert part * total == a.deposit && amount * part == amount / total * a.deposit;
    if a.deposit > 0.0 && amount < total {
      assert part > 0.0 && (total - amount) * part > 0.0;
    }
  }

  /** The portions of an amount over all accounts and the dust are the whole amount. */
  lemma PortionsTotal(l: Ledger, amount: real)
    requires l.total > 0.0 && l.total == Total(Deposits(l)) + l.dust.deposit
    ensures Total(map x | x in l.accounts :: Portion(l.accounts[x], amount, l.total)) + Portion(l.dust, amount, l.total) == amount
  {
    hide Times, Portion, Total;
    var portions := map x | x in l.accounts :: Portion(l.accounts[x], amount, l.total);
    forall x | x in l.accounts ensures Times(portions[x], amount / l.total, Deposits(l)[x]) {
      PortionIs(l.accounts[x], amount, l.total);
    }
    TotalTimes(portions, amount / l.total, Deposits(l));
    PortionIs(l.dust, amount, l.total);
    TimesAdd(amount / l.total, Total(portions), Total(Deposits(l)), Portion(l.dust, amount, l.total), l.dust.deposit,
             Total(portions) + Portion(l.dust, amount, l.total), l.total);
    WholeOf(amount, l.total, Total(portions) + Portion(l.dust, amount, l.total));
  }

  lemma WholeOf(amount: real, total: real, u: real)
    requires total > 0.0 && Times(u, amount / total, total)
    ensures u == amount
  {
  }

  /** The loop, account by account: each bears the part of the debt, and gets the part of the collateral, that its deposit is of the total. */
  lemma ChargesInProportion(l: Ledger, debt: real, coll: real, x: Address)
    requires l.total > 0.0 && x in l.accounts
    ensures var r := NaiveOffset(l, debt, coll);
            r.accounts.Keys == l.accounts.Keys && r.total == l.total - debt && r.coll == l.coll + coll
            && r.accounts[x].deposit * l.total == l.accounts[x].deposit * (l.total - debt)
            && (r.accounts[x].gain - l.accounts[x].gain) * l.total == coll * l.accounts[x].deposit
  {
    var part, a := l.accounts[x].deposit / l.total, l.accounts[x];
    Quotient(a.deposit, l.total);
    PartOfTotal(part, l.total, debt, a.deposit);
    PartOfTotal(part, l.total, coll, a.deposit);
    hide Conserved;
    assert NaiveOffset(l, debt, coll).accounts[x] == Account(a.deposit - debt * part, a.gain + coll * part);
    LeftOfTotal(a.deposit, debt * part, l.total, debt);
  }

  lemma PartOfTotal(part: real, total: real, amount: real, deposit: real)
    requires part * total == deposit
    ensures amount * part * total == amount * deposit
  {
  }

  lemma LeftOfTotal(deposit: real, share: real, total: real, debt: real)
    requires share * total == debt * deposit
    ensures (deposit - share) * total == deposit * (total - debt)
  {
  }

  lemma OffsetConserved(l: Ledger, debt: real, coll: real)
    requires Conserved(l) && l.total > 0.0 && debt < l.total && coll >= 0.0
    ensures Conserved(NaiveOffset(l, debt, coll))
  {
    hide Portion, Total;
    var r := NaiveOffset(l, debt, coll);
    var debts := map x | x in l.accounts :: Portion(l.accounts[x], debt, l.total);
    var colls := map x | x in l.accounts :: Portion(l.accounts[x], coll, l.total);
    TotalAdd(Deposits(l), Deposits(r), debts);
    TotalAdd(Gains(r), Gains(l), colls);
    PortionsTotal(l, debt);
    PortionsTotal(l, coll);
    PortionIs(l.dust, debt, l.total);
    PortionIs(l.dust, coll, l.total);
    forall x | x in r.accounts ensures r.accounts[x].deposit > 0.0 && r.accounts[x].gain >= 0.0 {
      PortionIs(l.accounts[x], debt, l.total);
      PortionIs(l.accounts[x], coll, l.total);
    }
  }

  lemma SettleConserved(l: Ledger, x: Address, kept: real, paid: real, change: real)
    requires Conserved(l) && 0.0 <= kept <= AccountOf(l, x).deposit && 0.0 <= paid <= AccountOf(l, x).gain
    requires kept + change >= 0.0
    ensures Conserved(NaiveSettle(l, x, kept, paid, change))
  {
    hide Total;
    var r := NaiveSettle(l, x, kept, paid, change);
    if kept + change == 0.0 {
      assert Deposits(r) == Deposits(l) - {x} && Gains(r) == Gains(l) - {x};
      if x in l.accounts {
        TotalSplit(Deposits(l), x);
        TotalSplit(Gains(l), x);
      } else {
        assert Deposits(l) - {x} == Deposits(l) && Gains(l) - {x} == Gains(l);
      }
    } else {
      assert Deposits(r) == Deposits(l)[x := kept + change] && Gains(r) == Gains(l)[x := 0.0];
      TotalUpdate(Deposits(l), x, kept + change);
      TotalUpdate(Gains(l), x, 0.0);
    }
  }

  /** A whole offset, seen from one account: first the sum, then the product. */
  lemma OffsetTracks(p: real, scale: nat, sums: map<nat, real>, d: Deposit, a: Account, debt: real, coll: real, total: real)
    requires Tracks(p, scale, sums, d, a) && p > 0.0 && NoLaterSums(sums, scale)
    requires total > 0.0 && debt < total && coll >= 0.0
    ensures var r := ScaleProduct(p, scale, 1.0 - debt / total);
            Tracks(r.0, r.1, AddToSum(sums, scale, coll / total, p), d, Absorb(a, debt, coll, total))
  {
    hide DepositIs, GainIs, ScaleProduct, AddToSum, NoLaterSums, Portion, Times;
    var factor, perUnit, later := 1.0 - debt / total, coll / total, AddToSum(sums, scale, coll / total, p);
    var r, after := ScaleProduct(p, scale, factor), Absorb(a, debt, coll, total);
    FactorPositive(debt, coll, total);
    PortionIs(a, coll, total);
    GainTracks(p, scale, sums, d, a, perUnit, after.gain);
    GainLater(scale, r.1, later, d, after.gain);
    RestIs(a, debt, total);
    ProductTracks(p, scale, d, a.deposit, factor, after.deposit);
  }

  lemma FeesTracks(p: real, q: real, scale: nat, sums: map<nat, real>, d: Deposit, a: Account, lusd: real, total: real)
    requires Tracks(p, scale, sums, d, a) && total > 0.0 && Times(q, 1.0 - -lusd / total, p)
    ensures Tracks(q, scale, sums, d, Absorb(a, -lusd, 0.0, total))
  {
    RestIs(a, -lusd, total);
    hide DepositIs, GainIs, Times;
    ByFactor(p, q, scale, d, a.deposit, 1.0 - -lusd / total, Absorb(a, -lusd, 0.0, total).deposit);
  }

  /** What an account keeps of its deposit is the same factor for every account. */
  lemma RestIs(a: Account, debt: real, total: real)
    requires total > 0.0
    ensures Times(a.deposit - Portion(a, debt, total), 1.0 - debt / total, a.deposit)
  {
    assert debt * (a.deposit / total) == debt / total * a.deposit;
  }

  lemma FactorPositive(debt: real, coll: real, total: real)
    requires total > 0.0 && debt < total && coll >= 0.0
    ensures 1.0 - debt / total > 0.0 && coll / total >= 0.0
  {
    assert (1.0 - debt / total) * total == total - debt;
  }

  /** Fresh snapshots stand for the deposit itself and no gain. */
  lemma FreshTracks(p: real, scale: nat, sums: map<nat, real>, value: real)
    requires p > 0.0 && value > 0.0 && NoLaterSums(sums, scale)
    ensures Tracks(p, scale, sums, Deposit(value, SumAt(sums, scale), p, scale), Account(value, 0.0))
  {
  }

  /** A fresh deposit reads as itself, without a gain. */
  lemma FreshReads(p: real, scale: nat, sums: map<nat, real>, value: real)
    requires p > 0.0 && value >= 0.0 && NoLaterSums(sums, scale)
    ensures var d := Deposit(value, SumAt(sums, scale), p, scale);
            CompoundedDeposit(p, scale, d) == value && CollateralGain(sums, d) == 0.0
  {
  }

  const EMPTY := Ledger(map[], Account(0.0, 0.0), 0.0, 0.0)

  lemma EmptyConserved()
    ensures Conserved(EMPTY)
  {
    assert Deposits(EMPTY) == map[] && Gains(EMPTY) == map[];
  }

  /** The snapshots of every depositor track the looping ledger, which conserves both amounts. */
  ghost predicate Represents(p: real, scale: nat, sums: map<nat, real>, deposits: map<Address, Deposit>,
                             total: real, coll: real, l: Ledger) {
    p > 0.0 && NoLaterSums(sums, scale)
    && l.total == total && l.coll == coll && Conserved(l)
    && l.accounts.Keys == deposits.Keys
    && forall x | x in deposits :: Tracks(p, scale, sums, deposits[x], l.accounts[x])
  }

  /** What an offset leaves of each unit deposited. */
  function LossFactor(debt: real, total: real): real
    requires total > 0.0
  {
    1.0 - debt / total
  }

  function PerUnit(coll: real, total: real): real
    requires total > 0.0
  {
    coll / total
  }

  /** One offset of the product and the sums is one offset of the looping ledger. */
  lemma OffsetRepresents(p: real, scale: nat, sums: map<nat, real>, deposits: map<Address, Deposit>,
                         total: real, held: real, l: Ledger, debt: real, coll: real, factor: real, perUnit: real)
    requires Represents(p, scale, sums, deposits, total, held, l)
    requires total > 0.0 && debt < total && coll >= 0.0
    requires factor == LossFactor(debt, total) && perUnit == PerUnit(coll, total)
    ensures var r := ScaleProduct(p, scale, factor);
            Represents(r.0, r.1, AddToSum(sums, scale, perUnit, p), deposits, total - debt, held + coll,
                       NaiveOffset(l, debt, coll))
  {
    hide Conserved, Tracks, Absorb, AddToSum, ScaleProduct, NoLaterSums;
    OffsetConserved(l, debt, coll);
    FactorPositive(debt, coll, l.total);
    SumsStayOrdered(sums, scale, perUnit, p);
    var r := ScaleProduct(p, scale, factor);
    LaterScale(AddToSum(sums, scale, perUnit, p), scale, r.1);
    forall x | x in deposits
      ensures Tracks(r.0, r.1, AddToSum(sums, scale, perUnit, p), deposits[x], Absorb(l.accounts[x], debt, coll, l.total))
    {
      OffsetTracks(p, scale, sums, deposits[x], l.accounts[x], debt, coll, l.total);
    }
  }

  /** One fee on the product is one fee on the looping ledger. */
  lemma FeesRepresent(p: real, q: real, scale: nat, sums: map<nat, real>, deposits: map<Address, Deposit>,
                      total: real, held: real, l: Ledger, lusd: real)
    requires Represents(p, scale, sums, deposits, total, held, l)
    requires total > 0.0 && lusd >= 0.0 && q == p * (1.0 + lusd / total)
    ensures Represents(q, scale, sums, deposits, total + lusd, held, NaiveFees(l, lusd))
  {
    hide Conserved, Tracks, Absorb, NoLaterSums;
    OffsetConserved(l, -lusd, 0.0);
    GrowthPositive(p, lusd, l.total);
    forall x | x in deposits
      ensures Tracks(q, scale, sums, deposits[x], Absorb(l.accounts[x], -lusd, 0.0, l.total))
    {
      FeesTracks(p, q, scale, sums, deposits[x], l.accounts[x], lusd, l.total);
    }
  }

  // ----- the contract

  class Pool {
    var P: real
    var currentScale: nat
    var scaleToSum: map<nat, real>
    var deposits: map<Address, Deposit>
    var totalLUSD: real
    var collateral: real
    ghost var ledger: Ledger

    ghost predicate Valid()
      reads this
    {
      Represents(P, currentScale, scaleToSum, deposits, totalLUSD, collateral, ledger)
    }

    /** No product, now or when a deposit was made, is below a billionth. */
    ghost predicate Bounded()
      reads this
    {
      P >= BILLIONTH && forall x | x in deposits :: deposits[x].pSnap >= BILLIONTH
    }

    constructor ()
      ensures Valid() && Bounded() && deposits == map[] && totalLUSD == 0.0 && collateral == 0.0
    {
      hide Tracks, Conserved;
      P, currentScale, scaleToSum, deposits, totalLUSD, collateral := 1.0, 0, map[], map[], 0.0, 0.0;
      ledger := EMPTY;
      new;
      EmptyConserved();
    }

    /** What depositor `x` would be paid: nothing is ever due to a stranger. */
    function Compounded(x: Address): real
      reads this
    {
      ClaimOf(P, currentScale, deposits, x)
    }

    function Gain(x: Address): real
      reads this
    {
      GainOf(scaleToSum, deposits, x)
    }

    /** The two numbers read off are those of the ledger, unless the deposit has become negligible. */
    ghost predicate Honest(x: Address, kept: real, paid: real)
      reads this
    {
      var a := AccountOf(ledger, x);
      0.0 <= kept <= a.deposit && 0.0 <= paid <= a.gain
      && (x in deposits ==>
            kept == (if Negligible(currentScale, deposits[x], a) then 0.0 else a.deposit)
            && (currentScale < deposits[x].scaleSnap + 2 ==> paid == a.gain))
    }

    /**
     What is read off is the whole deposit of the ledger or nothing; and nothing only once that deposit has fallen
     below a billionth of its start, or of its start times a product that fees have raised.
     */
    lemma ReadsZeroOnlyIfTiny(x: Address)
      requires Valid() && x in deposits
      ensures var start, a := deposits[x].initial, AccountOf(ledger, x).deposit;
              a > 0.0 && (Compounded(x) == a || Compounded(x) == 0.0)
              && (a < start * BILLIONTH ==> Compounded(x) == 0.0)
              && (Bounded() && Compounded(x) == 0.0 ==> a < start * BILLIONTH || a <= start * P * BILLIONTH)
    {
      hide GainIs, DepositIs, NoLaterSums, Conserved;
      ReadOffHonest(x);
      DepositPositive(P, currentScale, deposits[x], ledger.accounts[x].deposit);
      ReadsZero(P, currentScale, deposits[x], ledger.accounts[x].deposit);
      hide CompoundedDeposit;
    }

    lemma ReadOffHonest(x: Address)
      requires Valid()
      ensures Honest(x, Compounded(x), Gain(x))
    {
      if x in deposits {
        ReadOff(P, currentScale, scaleToSum, deposits[x], ledger.accounts[x]);
      }
    }

    /** Replaces the deposit of `x`, with fresh snapshots; a zero deposit is deleted. */
    method Settle(x: Address, kept: real, paid: real, change: real)
      requires Valid() && Honest(x, kept, paid) && kept + change >= 0.0 && totalLUSD + change >= 0.0
      modifies this
      ensures Valid() && ledger == NaiveSettle(old(ledger), x, kept, paid, change)
      ensures totalLUSD == old(totalLUSD) + change && collateral == old(collateral) - paid
      ensures OnlyEntry(old(deposits), deposits, x, kept + change == 0.0)
      ensures P == old(P) && currentScale == old(currentScale) && scaleToSum == old(scaleToSum)
      ensures old(Bounded()) ==> Bounded()
      ensures AccountOf(ledger, x) == Account(kept + change, 0.0) && Compounded(x) == kept + change && Gain(x) == 0.0
    {
      hide Tracks, Conserved;
      SettleConserved(ledger, x, kept, paid, change);
      totalLUSD := totalLUSD + change;
      if kept + change == 0.0 {
        deposits := deposits - {x};
      } else {
        FreshTracks(P, currentScale, scaleToSum, kept + change);
        deposits := deposits[x := Deposit(kept + change, SumAt(scaleToSum, currentScale), P, currentScale)];
      }
      collateral := collateral - paid;
      ledger := NaiveSettle(ledger, x, kept, paid, change);
      FreshReads(P, currentScale, scaleToSum, kept + change);
    }

    method ProvideToSP(x: Address, amount: real) returns (ok: bool, kept: real, paid: real)
      requires Valid()
      modifies this
      ensures Valid()
      ensures ok <==> amount > 0.0
      ensures !ok ==> ledger == old(ledger)
      ensures ok ==> old(Honest(x, kept, paid)) && ledger == NaiveSettle(old(ledger), x, kept, paid, amount)
      ensures ok ==> kept == old(Compounded(x)) && paid == old(Gain(x)) && Compounded(x) == kept + amount && Gain(x) == 0.0
                     && totalLUSD == old(totalLUSD) + amount && collateral == old(collateral) - paid
      ensures old(Bounded()) ==> Bounded()
    {
      if amount <= 0.0 {
        return false, 0.0, 0.0;
      }
      ReadOffHonest(x);
      TotalCoversAll();
      paid, kept := Gain(x), Compounded(x);
      Settle(x, kept, paid, amount);
      return true, kept, paid;
    }

    /** Withdraws at most `amount`, the compounded deposit, and what the pool may give. */
    method WithdrawFromSP(x: Address, amount: real) returns (ok: bool, out: real, paid: real)
      requires Valid() && amount >= 0.0
      modifies this
      ensures Valid()
      ensures ok <==> x in old(deposits)
      ensures !ok ==> ledger == old(ledger) && out == 0.0 && paid == 0.0
      ensures ok ==> paid == old(Gain(x))
      ensures ok ==> out == MinReal(MinReal(amount, Available(old(totalLUSD))), old(Compounded(x)))
      ensures ok ==> old(Honest(x, Compounded(x), Gain(x)))
                     && ledger == NaiveSettle(old(ledger), x, old(Compounded(x)), paid, -out)
      ensures totalLUSD == old(totalLUSD) - out && collateral == old(collateral) - paid
      ensures P == old(P) && currentScale == old(currentScale) && scaleToSum == old(scaleToSum)
      ensures ok ==> OthersKept(old(deposits), deposits, x, out == old(Compounded(x)))
      ensures ok ==> Compounded(x) == old(Compounded(x)) - out && Gain(x) == 0.0
      ensures ok && out > 0.0 ==> totalLUSD >= MIN_LUSD_IN_SP
      ensures ok ==> 0.0 <= out <= amount && (out == amount || out == old(Compounded(x)) || totalLUSD <= MIN_LUSD_IN_SP)
      ensures old(Bounded()) ==> Bounded()
    {
      hide Represents, Honest, ClaimOf, GainOf, NaiveSettle, MinReal, Available, OnlyEntry, OthersKept;
      if x !in deposits {
        return false, 0.0, 0.0;
      }
      ReadOffHonest(x);
      ClaimNonNegative(x);
      var kept := Compounded(x);
      paid := Gain(x);
      out := MinReal(MinReal(amount, Available(totalLUSD)), kept);
      OutBounds(amount, totalLUSD, kept, out);
      Settle(x, kept, paid, -out);
      OnlyHolder(old(deposits), deposits, x, out == kept);
      return true, out, paid;
    }

    /**
     Everybody withdraws, in any order. No withdrawal reverts; each depositor gets the whole compounded
     deposit until the pool is down to its minimum, and collateral gains are paid in full.
     */
    method WithdrawAll(order: seq<Address>, amount: real) returns (outs: seq<real>, gains: seq<real>)
      requires Valid() && amount >= totalLUSD
      requires AllIn(deposits, order) && Distinct(order)
      modifies this
      ensures Valid() && |outs| == |order|
      ensures gains == GainsOf(old(scaleToSum), old(deposits), order) && collateral == old(collateral) - SumOf(gains)
      ensures var claims := ClaimsOf(old(P), old(currentScale), old(deposits), order);
              totalLUSD == (if SumOf(claims) + MIN_LUSD_IN_SP <= old(totalLUSD) then old(totalLUSD) - SumOf(claims)
                            else MinReal(old(totalLUSD), MIN_LUSD_IN_SP))
              && (forall j | 0 <= j < |order| :: SumOf(claims[..j + 1]) + MIN_LUSD_IN_SP <= old(totalLUSD) ==> outs[j] == claims[j])
              && (SumOf(claims) + MIN_LUSD_IN_SP <= old(totalLUSD) ==> forall x | x in order :: x !in deposits)
    {
      ghost var w := Withdrawals(order, ClaimsOf(P, currentScale, deposits, order), GainsOf(scaleToSum, deposits, order),
                                 deposits, totalLUSD, collateral, amount);
      TotalCoversAll();
      outs, gains := [], [];
      Start(w);
      hide *;
      for i := 0 to |order|
        invariant Valid() && P == old(P) && currentScale == old(currentScale) && scaleToSum == old(scaleToSum)
        invariant |outs| == i && Halfway(w, deposits, totalLUSD, collateral, outs, gains)
      {
        outs, gains := WithdrawNext(order[i], amount, outs, gains, w);
      }
      Finish(w, deposits, totalLUSD, collateral, outs, gains);
    }

    method WithdrawNext(x: Address, amount: real, outs: seq<real>, gains: seq<real>, ghost w: Withdrawals)
      returns (outs': seq<real>, gains': seq<real>)
      requires Valid() && Halfway(w, deposits, totalLUSD, collateral, outs, gains)
      requires |outs| < |w.order| && x == w.order[|outs|] && amount == w.amount
      requires w.claims == ClaimsOf(P, currentScale, w.start, w.order) && w.due == GainsOf(scaleToSum, w.start, w.order)
      modifies this
      ensures Valid() && Halfway(w, deposits, totalLUSD, collateral, outs', gains') && |outs'| == |outs| + 1
      ensures P == old(P) && currentScale == old(currentScale) && scaleToSum == old(scaleToSum)
    {
      hide *;
      SoundSoFar(w, deposits, totalLUSD, collateral, outs, gains);
      SameClaims(w, P, currentScale, scaleToSum, deposits, totalLUSD, collateral, outs, gains);
      ClaimNonNegative(x);
      ghost var was, total, held := deposits, totalLUSD, collateral;
      var ok, out, paid := WithdrawFromSP(x, amount);
      OneOut(w, was, deposits, total, held, outs, gains, out, paid);
      outs', gains' := outs + [out], gains + [paid];
    }

    lemma ClaimNonNegative(x: Address)
      requires Valid()
      ensures Compounded(x) == ClaimOf(P, currentScale, deposits, x) >= 0.0 && totalLUSD >= 0.0
      ensures Gain(x) == GainOf(scaleToSum, deposits, x)
    {
      ReadOffHonest(x);
      TotalCoversAll();
    }

    /** What all depositors together could claim is covered, in LUSD and in collateral. */
    lemma ClaimsCovered()
      requires Valid()
      ensures Total(map x | x in deposits :: Compounded(x)) <= totalLUSD
      ensures Total(map x | x in deposits :: Gain(x)) <= collateral
    {
      forall x | x in deposits
        ensures Compounded(x) <= Deposits(ledger)[x] && Gain(x) <= Gains(ledger)[x]
      {
        ReadOffHonest(x);
      }
      TotalMonotone(map x | x in deposits :: Compounded(x), Deposits(ledger));
      TotalMonotone(map x | x in deposits :: Gain(x), Gains(ledger));
    }

    lemma TotalCoversAll()
      requires Valid()
      ensures totalLUSD >= 0.0 && collateral >= 0.0
      ensures Total(Deposits(ledger)) <= totalLUSD && Total(Gains(ledger)) <= collateral
    {
      TotalNonNegative(Deposits(ledger));
      TotalNonNegative(Gains(ledger));
    }

    /** Reverts if the debt is not below the deposits or would leave less than the minimum. */
    method Offset(debt: real, coll: real) returns (ok: bool)
      requires Valid() && debt >= 0.0 && coll >= 0.0
      modifies this
      ensures Valid() && deposits == old(deposits)
      ensures ok <==> old(totalLUSD) == 0.0 || debt == 0.0 || old(totalLUSD) - debt >= MIN_LUSD_IN_SP
      ensures ledger == if ok && old(totalLUSD) != 0.0 && debt != 0.0 then NaiveOffset(old(ledger), debt, coll) else old(ledger)
      ensures if ok && old(totalLUSD) != 0.0 && debt != 0.0 then
                totalLUSD == old(totalLUSD) - debt && collateral == old(collateral) + coll
                && (var q := old(P) * (1.0 - debt / old(totalLUSD));
                    (q >= BILLIONTH ==> currentScale == old(currentScale) && P == q)
                    && (BILLIONTH * BILLIONTH <= q < BILLIONTH ==> currentScale == old(currentScale) + 1 && P * BILLIONTH == q)
                    && (q < BILLIONTH * BILLIONTH ==> currentScale == old(currentScale) + 2 && P * BILLIONTH * BILLIONTH == q)
                    && (P >= BILLIONTH <==> q >= BILLIONTH * BILLIONTH * BILLIONTH))
              else unchanged(this)
      ensures old(Bounded()) && old(totalLUSD) <= 1000000000000000000.0 ==> Bounded()
    {
      hide Represents, AddToSum, ScaleProduct, NaiveOffset, LossFactor, PerUnit, Total;
      TotalCoversAll();
      if totalLUSD == 0.0 || debt == 0.0 {
        return true;
      }
      if debt >= totalLUSD || totalLUSD - debt < MIN_LUSD_IN_SP {
        return false;
      }
      LedgerTotals();
      var factor, perUnit := LossFactor(debt, totalLUSD), PerUnit(coll, totalLUSD);
      OffsetRepresents(P, currentScale, scaleToSum, deposits, totalLUSD, collateral, ledger, debt, coll, factor, perUnit);
      var product := ScaleProduct(P, currentScale, factor);
      MovesOn(P, currentScale, debt, totalLUSD, P * (1.0 - debt / totalLUSD));
      ledger := NaiveOffset(ledger, debt, coll);
      scaleToSum := AddToSum(scaleToSum, currentScale, perUnit, P);
      P, currentScale := product.0, product.1;
      totalLUSD, collateral := totalLUSD - debt, collateral + coll;
      return true;
    }

    lemma LedgerTotals()
      requires Valid()
      ensures ledger.total == totalLUSD && ledger.coll == collateral
    {
    }

    /** Fees raise the product: every deposit earns its part at once. */
    method DistributeFees(lusd: real) returns (ok: bool)
      requires Valid() && lusd >= 0.0
      modifies this
      ensures Valid() && deposits == old(deposits)
      ensures ok <==> lusd == 0.0 || old(totalLUSD) > 0.0
      ensures ledger == if ok && lusd > 0.0 then NaiveFees(old(ledger), lusd) else old(ledger)
      ensures if ok && lusd > 0.0 then
                totalLUSD == old(totalLUSD) + lusd && collateral == old(collateral) && currentScale == old(currentScale)
                && P == old(P) * (1.0 + lusd / old(totalLUSD)) && P >= old(P)
              else unchanged(this)
      ensures old(Bounded()) ==> Bounded()
    {
      if lusd == 0.0 {
        return true;
      }
      if totalLUSD <= 0.0 {
        return false;
      }
      LedgerTotals();
      hide Represents, NaiveFees;
      var product := P * (1.0 + lusd / totalLUSD);
      FeesRepresent(P, product, currentScale, scaleToSum, deposits, totalLUSD, collateral, ledger, lusd);
      ledger := NaiveFees(ledger, lusd);
      P := product;
      totalLUSD := totalLUSD + lusd;
      return true;
    }
  }

  function ClaimOf(p: real, scale: nat, deposits: map<Address, Deposit>, x: Address): real {
    if x in deposits && deposits[x].pSnap != 0.0 then CompoundedDeposit(p, scale, deposits[x]) else 0.0
  }

  ghost function ClaimsOf(p: real, scale: nat, deposits: map<Address, Deposit>, order: seq<Address>): (s: seq<real>)
    ensures |s| == |order|
  {
    seq(|order|, i requires 0 <= i < |order| => ClaimOf(p, scale, deposits, order[i]))
  }

  function GainOf(sums: map<nat, real>, deposits: map<Address, Deposit>, x: Address): real {
    if x in deposits && deposits[x].pSnap != 0.0 then CollateralGain(sums, deposits[x]) else 0.0
  }

  ghost function GainsOf(sums: map<nat, real>, deposits: map<Address, Deposit>, order: seq<Address>): (s: seq<real>)
    ensures |s| == |order|
  {
    seq(|order|, i requires 0 <= i < |order| => GainOf(sums, deposits, order[i]))
  }

  // ----- withdrawals in turn

  predicate AllIn(deposits: map<Address, Deposit>, order: seq<Address>) {
    forall i | 0 <= i < |order| :: order[i] in deposits
  }

  predicate Distinct(order: seq<Address>) {
    forall i, j | 0 <= i < j < |order| :: order[i] != order[j]
  }

  /** Only the entry of `x` was written or deleted. */
  ghost predicate OnlyEntry(was: map<Address, Deposit>, now: map<Address, Deposit>, x: Address, deleted: bool) {
    now.Keys == (if deleted then was.Keys - {x} else was.Keys + {x})
    && forall y | y in now && y != x :: y in was && now[y] == was[y]
  }

  lemma OnlyHolder(was: map<Address, Deposit>, now: map<Address, Deposit>, x: Address, leaves: bool)
    requires x in was && OnlyEntry(was, now, x, leaves)
    ensures OthersKept(was, now, x, leaves)
  {
  }

  /** Only the entry of `x` changed, and it is gone if `leaves`. */
  ghost predicate OthersKept(was: map<Address, Deposit>, now: map<Address, Deposit>, x: Address, leaves: bool) {
    now.Keys == (if leaves then was.Keys - {x} else was.Keys) && forall y | y in now && y != x :: y in was && now[y] == was[y]
  }

  /** The depositors from position `i` on are as they were. */
  ghost predicate Untouched(now: map<Address, Deposit>, was: map<Address, Deposit>, order: seq<Address>, i: nat) {
    forall j | i <= j < |order| :: order[j] in now && order[j] in was && now[order[j]] == was[order[j]]
  }

  /** The first `i` depositors have left. */
  ghost predicate Gone(now: map<Address, Deposit>, order: seq<Address>, i: nat) {
    forall j | 0 <= j < i && j < |order| :: order[j] !in now
  }

  /** Whoever's claim fits in `limit` with those before got it whole. */
  ghost predicate InFull(claims: seq<real>, outs: seq<real>, limit: real) {
    |outs| <= |claims| && forall j | 0 <= j < |outs| :: SumOf(claims[..j + 1]) <= limit ==> outs[j] == claims[j]
  }

  /** Withdrawals in turn: whose, what they claim and have earned, and the pool they start from. */
  datatype Withdrawals = Withdrawals(order: seq<Address>, claims: seq<real>, due: seq<real>,
                                     start: map<Address, Deposit>, before: real, held: real, amount: real)
  {
    ghost predicate Sound() {
      |claims| == |due| == |order| && before >= 0.0 && amount >= before && Distinct(order)
    }
  }

  /** Where the withdrawals stand when `outs` and `gains` have been paid. */
  ghost predicate Halfway(w: Withdrawals, now: map<Address, Deposit>, total: real, held: real, outs: seq<real>, gains: seq<real>) {
    w.Sound() && |outs| <= |w.order| && gains == w.due[..|outs|]
    && HalfwayAt(w, now, total, held, outs, SumOf(w.claims[..|outs|]), SumOf(gains))
  }

  ghost predicate HalfwayAt(w: Withdrawals, now: map<Address, Deposit>, total: real, held: real, outs: seq<real>, asked: real, earned: real) {
    asked >= 0.0 && InFull(w.claims, outs, Available(w.before))
    && total == w.before - MinReal(asked, Available(w.before)) && held == w.held - earned
    && Untouched(now, w.start, w.order, |outs|) && (asked <= Available(w.before) ==> Gone(now, w.order, |outs|))
  }

  lemma SoundSoFar(w: Withdrawals, now: map<Address, Deposit>, total: real, held: real, outs: seq<real>, gains: seq<real>)
    requires Halfway(w, now, total, held, outs, gains)
    ensures |w.claims| == |w.due| == |w.order| && w.before >= 0.0 && w.amount >= w.before
  {
  }

  lemma Start(w: Withdrawals)
    requires w.Sound() && AllIn(w.start, w.order)
    ensures Halfway(w, w.start, w.before, w.held, [], [])
  {
  }

  /** The next depositor still has the claim and the gain of the start. */
  lemma SameClaims(w: Withdrawals, p: real, scale: nat, sums: map<nat, real>, now: map<Address, Deposit>,
                   total: real, held: real, outs: seq<real>, gains: seq<real>)
    requires Halfway(w, now, total, held, outs, gains) && |outs| < |w.order|
    requires w.claims == ClaimsOf(p, scale, w.start, w.order) && w.due == GainsOf(sums, w.start, w.order)
    ensures var x := w.order[|outs|];
            x in now && ClaimOf(p, scale, now, x) == w.claims[|outs|] && GainOf(sums, now, x) == w.due[|outs|]
  {
    hide ClaimOf, GainOf, SumOf, InFull, Gone;
    assert w.claims[|outs|] == ClaimOf(p, scale, w.start, w.order[|outs|]);
    assert w.due[|outs|] == GainOf(sums, w.start, w.order[|outs|]);
    SameEntry(p, scale, sums, now, w.start, w.order[|outs|]);
  }

  lemma SameEntry(p: real, scale: nat, sums: map<nat, real>, now: map<Address, Deposit>, was: map<Address, Deposit>, x: Address)
    requires x in now && x in was && now[x] == was[x]
    ensures ClaimOf(p, scale, now, x) == ClaimOf(p, scale, was, x) && GainOf(sums, now, x) == GainOf(sums, was, x)
  {
  }

  lemma OneOut(w: Withdrawals, was: map<Address, Deposit>, now: map<Address, Deposit>, total: real, held: real,
               outs: seq<real>, gains: seq<real>, out: real, paid: real)
    requires Halfway(w, was, total, held, outs, gains) && |outs| < |w.order|
    requires var claim := w.claims[|outs|];
             claim >= 0.0 && paid == w.due[|outs|] && out == MinReal(MinReal(w.amount, Available(total)), claim)
             && OthersKept(was, now, w.order[|outs|], out == claim)
    ensures Halfway(w, now, total - out, held - paid, outs + [out], gains + [paid])
  {
    hide SumOf, MinReal, Available, InFull, Untouched, Gone, OthersKept;
    var i, asked := |outs|, SumOf(w.claims[..|outs|]);
    SumStep(w.claims, i);
    SumAppend(gains, paid);
    OnePayout(w.before, asked, w.claims[i], w.amount);
    PaidInFull(w.claims, outs, asked, out, Available(w.before));
    OneLess(was, now, w.start, w.order, i, out == w.claims[i]);
    assert HalfwayAt(w, now, total - out, held - paid, outs + [out], asked + w.claims[i], SumOf(gains) + paid);
    assert gains + [paid] == w.due[..i + 1];
  }

  lemma PaidInFull(claims: seq<real>, outs: seq<real>, asked: real, out: real, limit: real)
    requires |outs| < |claims| && InFull(claims, outs, limit) && asked == SumOf(claims[..|outs|])
    requires asked + claims[|outs|] <= limit ==> out == claims[|outs|]
    ensures InFull(claims, outs + [out], limit)
  {
    SumStep(claims, |outs|);
    hide SumOf;
  }

  lemma OneLess(was: map<Address, Deposit>, now: map<Address, Deposit>, start: map<Address, Deposit>, order: seq<Address>, i: nat, leaves: bool)
    requires i < |order| && Distinct(order)
    requires Untouched(was, start, order, i) && OthersKept(was, now, order[i], leaves)
    ensures Untouched(now, start, order, i + 1)
    ensures Gone(was, order, i) && leaves ==> Gone(now, order, i + 1)
  {
    forall j | i < j < |order| ensures order[j] in now && order[j] in start && now[order[j]] == start[order[j]] {
      assert order[j] in was && order[j] != order[i];
      assert order[j] in now.Keys;
    }
  }

  lemma Finish(w: Withdrawals, now: map<Address, Deposit>, total: real, held: real, outs: seq<real>, gains: seq<real>)
    requires Halfway(w, now, total, held, outs, gains) && |outs| == |w.order|
    requires forall j | 0 <= j < |w.claims| :: w.claims[j] >= 0.0
    ensures gains == w.due && held == w.held - SumOf(gains)
    ensures total == if SumOf(w.claims) + MIN_LUSD_IN_SP <= w.before then w.before - SumOf(w.claims) else MinReal(w.before, MIN_LUSD_IN_SP)
    ensures forall j | 0 <= j < |w.order| :: SumOf(w.claims[..j + 1]) + MIN_LUSD_IN_SP <= w.before ==> outs[j] == w.claims[j]
    ensures SumOf(w.claims) + MIN_LUSD_IN_SP <= w.before ==> forall x | x in w.order :: x !in now
  {
    SumNonNegative(w.claims);
    hide SumOf;
    assert w.claims[..|outs|] == w.claims && w.due[..|outs|] == w.due;
  }

  lemma {:induction false} SumNonNegative(s: seq<real>)
    requires forall j | 0 <= j < |s| :: s[j] >= 0.0
    ensures SumOf(s) >= 0.0
  {
    if s != [] { SumNonNegative(s[..|s| - 1]); }
  }

  lemma OutBounds(amount: real, total: real, kept: real, out: real)
    requires amount >= 0.0 && total >= 0.0 && kept >= 0.0 && out == MinReal(MinReal(amount, Available(total)), kept)
    ensures 0.0 <= out <= kept && out <= total && out <= amount
    ensures out > 0.0 ==> total - out >= MIN_LUSD_IN_SP
    ensures out == amount || out == kept || total - out <= MIN_LUSD_IN_SP
  {
  }

  /** One withdrawal after withdrawals of `sum` have been asked for. */
  lemma OnePayout(before: real, sum: real, claim: real, amount: real)
    requires before >= 0.0 && sum >= 0.0 && claim >= 0.0 && amount >= before
    ensures var total := before - MinReal(sum, Available(before));
            var out := MinReal(MinReal(amount, Available(total)), claim);
            total - out == before - MinReal(sum + claim, Available(before))
            && (sum + claim <= Available(before) ==> out == claim)
  {
  }

  ghost function SumOf(s: seq<real>): real {
    if s == [] then 0.0 else SumOf(s[..|s| - 1]) + s[|s| - 1]
  }

  lemma SumAppend(s: seq<real>, x: real)
    ensures SumOf(s + [x]) == SumOf(s) + x
  {
    assert (s + [x])[..|s|] == s;
  }

  lemma SumStep(s: seq<real>, i: nat)
    requires i < |s|
    ensures SumOf(s[..i + 1]) == SumOf(s[..i]) + s[i]
  {
    assert s[..i + 1][..i] == s[..i];
  }

  function Available(total: real): real {
    if total > MIN_LUSD_IN_SP then total - MIN_LUSD_IN_SP else 0.0
  }

  lemma LaterScale(sums: map<nat, real>, scale: nat, later: nat)
    requires NoLaterSums(sums, scale) && scale <= later
    ensures NoLaterSums(sums, later)
  {
  }

  lemma GrowthPositive(p: real, lusd: real, total: real)
    requires p > 0.0 && lusd >= 0.0 && total > 0.0
    ensures p * (1.0 + lusd / total) > 0.0 && Times(p * (1.0 + lusd / total), 1.0 - -lusd / total, p)
  {
    assert lusd / total >= 0.0;
  }

  lemma SumsStayOrdered(sums: map<nat, real>, scale: nat, perUnit: real, p: real)
    requires NoLaterSums(sums, scale) && perUnit >= 0.0 && p > 0.0
    ensures NoLaterSums(AddToSum(sums, scale, perUnit, p), scale)
  {
    assert perUnit * p >= 0.0;
  }
}
