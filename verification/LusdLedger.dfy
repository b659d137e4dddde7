/**
 The LUSD side of the whole system, in wei and at accumulated rates of one: every mint, burn and
 transfer next to every change of recorded debt. Redistributed debt waits in the default pool;
 which part of it each trove is owed is an input, limited only by what was redistributed.
 */
module LusdLedger {
  import opened Accounts
  import opened Arithmetic
  import opened Protocol

  const MIN_TROVE_DEBT: nat := MIN_NET_DEBT + LUSD_GAS_COMPENSATION

  type Amounts = map<Address, nat>

  ghost function Reals(m: Amounts): map<Address, real> { map x | x in m :: m[x] as real }

  ghost function Sum(m: Amounts): real { Total(Reals(m)) }

  function At(m: Amounts, x: Address): nat { if x in m then m[x] else 0 }

  lemma SumPut(m: Amounts, x: Address, v: nat)
    ensures Sum(m[x := v]) == Sum(m) + v as real - At(m, x) as real
    ensures At(m, x) as real <= Sum(m)
  {
    hide Total;
    assert Reals(m[x := v]) == Reals(m)[x := v as real];
    TotalUpdate(Reals(m), x, v as real);
    TotalNonNegative(Reals(m));
    if x in m {
      assert Reals(m)[x] <= Total(Reals(m));
    }
  }

  lemma SumRemove(m: Amounts, x: Address)
    requires x in m
    ensures Sum(m - {x}) == Sum(m) - m[x] as real
    ensures m[x] as real <= Sum(m)
  {
    hide Total;
    assert Reals(m - {x}) == Reals(m) - {x};
    TotalSplit(Reals(m), x);
    SumPut(m, x, 0);
  }

  function Plus(m: Amounts, shares: Amounts): Amounts { map x | x in m :: m[x] + At(shares, x) }

  lemma {:induction false} SumPlus(m: Amounts, shares: Amounts)
    requires shares.Keys <= m.Keys
    ensures Sum(Plus(m, shares)) == Sum(m) + Sum(shares)
    decreases shares.Keys
  {
    if shares == map[] {
      assert Plus(m, shares) == m;
      SumEmpty();
    } else {
      var x :| x in shares;
      var less := shares - {x};
      hide Sum;
      SumRemove(shares, x);
      PlusOne(m, shares, x, less);
      SumPut(Plus(m, less), x, m[x] + shares[x]);
      hide Plus, At;
      SumPlus(m, less);
    }
  }

  lemma PlusOne(m: Amounts, shares: Amounts, x: Address, less: Amounts)
    requires shares.Keys <= m.Keys && x in shares && less == shares - {x}
    ensures less.Keys <= m.Keys && At(Plus(m, less), x) == m[x]
    ensures Plus(m, shares) == Plus(m, less)[x := m[x] + shares[x]]
  {
  }

  lemma SumEmpty()
    ensures Sum(map[]) == 0.0
  {
    assert Reals(map[]) == map[];
  }

  /** Debt of some troves, each with what it is owed. */
  function EntireOf(debts: Amounts, pending: Amounts, troves: set<Address>): Amounts {
    map b | b in troves && b in debts :: debts[b] + At(pending, b)
  }

  lemma EntireAdd(debts: Amounts, pending: Amounts, troves: set<Address>, b: Address)
    requires b in debts && b !in troves
    ensures Sum(EntireOf(debts, pending, troves + {b})) == Sum(EntireOf(debts, pending, troves)) + (debts[b] + At(pending, b)) as real
  {
    hide Sum;
    var m := EntireOf(debts, pending, troves);
    SumPut(m, b, debts[b] + At(pending, b));
    assert EntireOf(debts, pending, troves + {b}) == m[b := debts[b] + At(pending, b)];
  }

  lemma EntireOfNone(debts: Amounts, pending: Amounts)
    ensures Sum(EntireOf(debts, pending, {})) == 0.0
  {
    SumEmpty();
    assert EntireOf(debts, pending, {}) == map[];
  }

  /** The listed active troves among `underwater`. */
  function HitsIn(list: seq<Address>, underwater: set<Address>, debts: Amounts): set<Address> {
    set b | b in list && b in underwater && b in debts
  }

  lemma WithoutBoth(m: Amounts, done: set<Address>, b: Address)
    ensures m - done - {b} == m - (done + {b})
  {
  }

  lemma WithoutCount(m: Amounts, troves: set<Address>)
    requires troves <= m.Keys
    ensures |m - troves| + |troves| == |m|
  {
    assert (m - troves).Keys == m.Keys - troves;
    assert |m.Keys - troves| + |troves| == |m.Keys|;
  }

  lemma HitsAre(list: seq<Address>, underwater: set<Address>, debts: Amounts)
    ensures var hits := HitsIn(list, underwater, debts);
            (forall b :: b in debts - hits <==> b in debts && !(b in list && b in underwater))
            && ({} < hits <==> exists b :: b in list && b in underwater && b in debts)
            && (hits < debts.Keys <==> exists b :: b in debts && !(b in list && b in underwater))
  {
    var hits := HitsIn(list, underwater, debts);
    if b :| b in list && b in underwater && b in debts {
      assert b in hits;
    } else {
      assert hits == {};
    }
    if b :| b in debts && !(b in list && b in underwater) {
      assert b in debts.Keys && b !in hits;
    } else {
      assert forall b | b in debts.Keys :: b in hits;
    }
  }

  lemma HitsNone(list: seq<Address>, underwater: set<Address>, debts: Amounts)
    ensures HitsIn(list[..0], underwater, debts) == {}
  {
  }

  lemma HitsStep(list: seq<Address>, i: nat, underwater: set<Address>, debts: Amounts)
    requires i < |list|
    ensures HitsIn(list[..i + 1], underwater, debts)
            == HitsIn(list[..i], underwater, debts) + if list[i] in underwater && list[i] in debts then {list[i]} else {}
  {
    assert list[..i + 1] == list[..i] + [list[i]];
  }

  predicate AboveMinimum(debts: Amounts) {
    forall b | b in debts :: debts[b] >= MIN_TROVE_DEBT
  }

  /** Giving one trove a debt above the minimum keeps them all there. */
  lemma AboveWith(debts: Amounts, b: Address, debt: nat)
    requires AboveMinimum(debts) && debt >= MIN_TROVE_DEBT
    ensures AboveMinimum(debts[b := debt])
    ensures b in debts ==> debts[b] >= MIN_TROVE_DEBT
  {
  }

  lemma AboveWithout(debts: Amounts, troves: set<Address>)
    requires AboveMinimum(debts)
    ensures AboveMinimum(debts - troves)
  {
  }

  /** The second of two writes counts. */
  lemma Rewrite(m: Amounts, b: Address, v: nat, w: nat)
    requires b in m
    ensures m[b := v][b := w] == m[b := w] && m[b := w].Keys == m.Keys && |m[b := w]| == |m|
  {
    assert m[b := w].Keys == m.Keys + {b} == m.Keys;
  }

  lemma WriteThenRemove(m: Amounts, b: Address, v: int)
    ensures v >= 0 ==> m[b := v] - {b} == m - {b}
  {
  }

  lemma NewEntry(m: Amounts, b: Address, v: nat)
    requires b !in m
    ensures |m[b := v]| == |m| + 1
  {
    assert m[b := v].Keys == m.Keys + {b};
  }

  /** What is left of the books after `hits` are taken off and their debt is spread. */
  lemma LeftOver(debts: Amounts, pending: Amounts, hits: set<Address>, shares: Amounts)
    requires pending.Keys == debts.Keys && hits <= debts.Keys && shares.Keys <= debts.Keys && shares.Keys !! hits
    requires AboveMinimum(debts)
    ensures shares.Keys <= (pending - hits).Keys
    ensures Plus(pending - hits, shares).Keys == (debts - hits).Keys
    ensures AboveMinimum(debts - hits) && |debts - hits| == |debts| - |hits|
  {
    AboveWithout(debts, hits);
    hide AboveMinimum;
    WithoutCount(debts, hits);
  }

  /** A transfer keeps the total, also one to oneself. */
  lemma SumMove(m: Amounts, from: Address, to: Address, amount: nat)
    requires amount <= At(m, from)
    ensures var paid := m[from := At(m, from) - amount];
            Sum(paid[to := At(paid, to) + amount]) == Sum(m)
  {
    hide Sum;
    var paid := m[from := At(m, from) - amount];
    SumPut(m, from, At(m, from) - amount);
    SumPut(paid, to, At(paid, to) + amount);
  }

  /** Recorded debt before and after a pending reward is applied at an accumulated rate. */
  datatype Books = Books(troveDebt: nat, activeDebt: nat)

  /** The trove is charged the reward as it stands, the active pool its normalized amount. */
  function Applied(b: Books, reward: nat, rate: nat): Books
    requires rate > 0
  {
    Books(b.troveDebt + reward, b.activeDebt + reward * RATE_PRECISION / rate)
  }

  /**
   Applying a reward keeps trove and active pool in step exactly when there is nothing to apply or
   no interest has accumulated yet. Below, the accumulated rates are one.
   */
  lemma RewardsNeedUnitRate(b: Books, reward: nat, rate: nat)
    requires rate >= RATE_PRECISION && b.troveDebt == b.activeDebt
    ensures Applied(b, reward, rate).troveDebt == Applied(b, reward, rate).activeDebt <==> reward == 0 || rate == RATE_PRECISION
  {
    var norm := reward * RATE_PRECISION / rate;
    DivBounds(reward * RATE_PRECISION, rate);
    if reward > 0 && rate > RATE_PRECISION {
      assert reward * rate > reward * RATE_PRECISION;
      Monotone(reward, norm, rate);
    }
  }

  class System {
    var balances: Amounts       // LUSD of users and liquidators
    var gasPool: nat            // LUSD reserved for gas compensation
    var stabilityPool: nat      // LUSD deposited in the stability pool
    var totalSupply: nat
    var activeDebt: nat         // debt recorded by the active pool
    var defaultDebt: nat        // debt waiting in the default pool
    var debts: Amounts          // recorded debt of each active trove
    var pending: Amounts        // redistributed debt each active trove is owed

    /** Somebody holds every LUSD there is. */
    ghost predicate Held()
      reads `balances, `gasPool, `stabilityPool, `totalSupply
    {
      totalSupply as real == Sum(balances) + (gasPool + stabilityPool) as real
    }

    /** Recorded debt is owed by a trove, except for `floating` wei of troves being liquidated. */
    ghost predicate Owed(floating: nat)
      reads `activeDebt, `defaultDebt, `debts, `pending
    {
      activeDebt as real == Sum(debts) + floating as real && Sum(pending) <= defaultDebt as real
    }

    /** All LUSD is backed by recorded debt, and every active trove has its reserve in the gas pool. */
    ghost predicate Valid()
      reads this
    {
      totalSupply == activeDebt + defaultDebt
      && gasPool == LUSD_GAS_COMPENSATION * |debts|
      && pending.Keys == debts.Keys
      && Held() && Owed(0) && AboveMinimum(debts)
    }

    /** What the stability pool may still absorb: it never falls below its minimum. */
    function MaxOffset(): nat
      reads `stabilityPool
    {
      stabilityPool - Min(MIN_LUSD_IN_SP, stabilityPool)
    }

    function Hits(list: seq<Address>, underwater: set<Address>): set<Address>
      reads `debts
    {
      HitsIn(list, underwater, debts)
    }

    constructor ()
      ensures Valid() && debts == map[] && totalSupply == 0
    {
      balances, debts, pending := map[], map[], map[];
      gasPool, stabilityPool, totalSupply, activeDebt, defaultDebt := 0, 0, 0, 0, 0;
      new;
      assert Reals(balances) == map[];
    }

    method Mint(x: Address, amount: nat)
      requires Held()
      modifies `balances, `totalSupply
      ensures Held() && totalSupply == old(totalSupply) + amount
      ensures balances == old(balances)[x := At(old(balances), x) + amount]
    {
      hide Sum;
      SumPut(balances, x, At(balances, x) + amount);
      balances, totalSupply := balances[x := At(balances, x) + amount], totalSupply + amount;
    }

    method Burn(x: Address, amount: nat)
      requires Held() && amount <= At(balances, x)
      modifies `balances, `totalSupply
      ensures Held() && totalSupply == old(totalSupply) - amount && amount <= old(totalSupply)
      ensures balances == old(balances)[x := At(old(balances), x) - amount]
    {
      hide Sum;
      SumPut(balances, x, At(balances, x) - amount);
      balances, totalSupply := balances[x := At(balances, x) - amount], totalSupply - amount;
    }

    /** Changes the debt of a trove and the active pool's record of it together. */
    method SetDebt(b: Address, debt: nat)
      requires Owed(0) && b in debts
      modifies `debts, `activeDebt
      ensures Owed(0) && debts == old(debts)[b := debt]
      ensures activeDebt == old(activeDebt) + debt - old(debts)[b]
    {
      hide Sum;
      SumPut(debts, b, debt);
      debts, activeDebt := debts[b := debt], activeDebt + debt - debts[b];
    }

    /** Moves what a trove is owed from the default pool into its recorded debt. */
    method ApplyPending(b: Address, ghost floating: nat)
      requires Owed(floating) && b in debts && b in pending
      modifies `activeDebt, `defaultDebt, `debts, `pending
      ensures Owed(floating) && pending == old(pending)[b := 0]
      ensures debts == old(debts)[b := old(debts)[b] + old(pending)[b]]
      ensures activeDebt + defaultDebt == old(activeDebt + defaultDebt)
      ensures defaultDebt == old(defaultDebt) - old(pending)[b]
    {
      hide Sum;
      var reward := pending[b];
      SumPut(pending, b, 0);
      SumPut(debts, b, debts[b] + reward);
      debts, pending := debts[b := debts[b] + reward], pending[b := 0];
      activeDebt, defaultDebt := activeDebt + reward, defaultDebt - reward;
    }

    /** Takes a trove off the books; the active pool still records its debt. */
    method RemoveTrove(b: Address, ghost floating: nat)
      requires Owed(floating) && b in debts && b in pending
      modifies `debts, `pending
      ensures debts == old(debts) - {b} && pending == old(pending) - {b}
      ensures |debts| == |old(debts)| - 1
      ensures Owed(floating + old(debts)[b])
    {
      hide Sum;
      SumRemove(debts, b);
      SumRemove(pending, b);
      assert At(pending, b) as real >= 0.0;
      debts, pending := debts - {b}, pending - {b};
    }

    /** Applies what a trove is owed and then gives it a new debt. */
    method ApplyAndSet(b: Address, debt: nat)
      requires Owed(0) && b in debts && b in pending
      modifies `activeDebt, `defaultDebt, `debts, `pending
      ensures Owed(0) && debts == old(debts)[b := debt] && pending == old(pending)[b := 0]
      ensures |debts| == |old(debts)| && debts.Keys == old(debts).Keys && pending.Keys == old(pending).Keys
      ensures activeDebt + defaultDebt == old(activeDebt + defaultDebt) + debt - old(debts)[b] - old(pending)[b]
    {
      hide Sum, Owed;
      Rewrite(debts, b, debts[b] + pending[b], debt);
      Rewrite(pending, b, 0, 0);
      ApplyPending(b, 0);
      SetDebt(b, debt);
    }

    /** `collateralised` stands for the checks on the collateral ratios. */
    method OpenTrove(b: Address, amount: nat, collateralised: bool) returns (ok: bool)
      requires Valid()
      modifies this
      ensures Valid() && (ok <==> b !in old(debts) && amount >= MIN_NET_DEBT && collateralised)
      ensures if ok then debts == old(debts)[b := amount + LUSD_GAS_COMPENSATION] && pending == old(pending)[b := 0]
                         && balances == old(balances)[b := At(old(balances), b) + amount]
                         && totalSupply == old(totalSupply) + amount + LUSD_GAS_COMPENSATION
              else unchanged(this)
    {
      hide Sum, Held, Owed, AboveMinimum;
      if b in debts || amount < MIN_NET_DEBT || !collateralised {
        return false;
      }
      NewEntry(debts, b, amount + LUSD_GAS_COMPENSATION);
      AboveWith(debts, b, amount + LUSD_GAS_COMPENSATION);
      Register(b, amount + LUSD_GAS_COMPENSATION);
      Mint(b, amount);
      FundReserve();
      return true;
    }

    /** A new trove and the active pool's record of its debt. */
    method Register(b: Address, debt: nat)
      requires Owed(0) && b !in debts && b !in pending
      modifies `debts, `pending, `activeDebt
      ensures Owed(0) && debts == old(debts)[b := debt] && pending == old(pending)[b := 0]
      ensures activeDebt == old(activeDebt) + debt
    {
      hide Sum;
      SumPut(debts, b, debt);
      SumPut(pending, b, 0);
      debts, pending, activeDebt := debts[b := debt], pending[b := 0], activeDebt + debt;
    }

    method FundReserve()
      requires Held()
      modifies `gasPool, `totalSupply
      ensures Held() && gasPool == old(gasPool) + LUSD_GAS_COMPENSATION
      ensures totalSupply == old(totalSupply) + LUSD_GAS_COMPENSATION
    {
      hide Sum;
      gasPool, totalSupply := gasPool + LUSD_GAS_COMPENSATION, totalSupply + LUSD_GAS_COMPENSATION;
    }

    method WithdrawLUSD(b: Address, amount: nat, collateralised: bool) returns (ok: bool)
      requires Valid()
      modifies this
      ensures Valid() && (ok <==> b in old(debts) && amount > 0 && collateralised)
      ensures if ok then debts == old(debts)[b := old(debts)[b] + old(pending)[b] + amount]
                         && balances == old(balances)[b := At(old(balances), b) + amount]
                         && totalSupply == old(totalSupply) + amount && pending == old(pending)[b := 0]
              else unchanged(this)
    {
      hide Sum, Held, Owed, AboveMinimum;
      if b !in debts || amount == 0 || !collateralised {
        return false;
      }
      AboveWith(debts, b, MIN_TROVE_DEBT);
      AboveWith(debts, b, debts[b] + pending[b] + amount);
      ApplyAndSet(b, debts[b] + pending[b] + amount);
      Mint(b, amount);
      return true;
    }

    /** Pays a part of a trove's entire debt with somebody's LUSD. */
    method PayDown(payer: Address, b: Address, amount: nat)
      requires totalSupply == activeDebt + defaultDebt && Held() && Owed(0) && pending.Keys == debts.Keys
      requires b in debts && amount <= debts[b] + pending[b] && amount <= At(balances, payer)
      modifies `balances, `totalSupply, `activeDebt, `defaultDebt, `debts, `pending
      ensures totalSupply == activeDebt + defaultDebt && Held() && Owed(0) && pending.Keys == debts.Keys
      ensures debts == old(debts)[b := old(debts)[b] + old(pending)[b] - amount]
      ensures balances == old(balances)[payer := At(old(balances), payer) - amount]
      ensures totalSupply == old(totalSupply) - amount && pending == old(pending)[b := 0]
    {
      hide Sum, Held, Owed;
      ApplyAndSet(b, debts[b] + pending[b] - amount);
      Burn(payer, amount);
    }

    /** Repays from the borrower's own balance, at most down to the minimum net debt. */
    method RepayLUSD(b: Address, amount: nat, collateralised: bool) returns (ok: bool)
      requires Valid()
      modifies this
      ensures Valid()
      ensures ok <==> b in old(debts) && 0 < amount <= At(old(balances), b) && collateralised
                      && old(debts)[b] + old(pending)[b] >= amount + MIN_TROVE_DEBT
      ensures if ok then debts == old(debts)[b := old(debts)[b] + old(pending)[b] - amount]
                         && balances == old(balances)[b := At(old(balances), b) - amount]
                         && totalSupply == old(totalSupply) - amount && pending == old(pending)[b := 0]
              else unchanged(this)
    {
      hide Sum, Held, Owed, AboveMinimum;
      if b !in debts || amount == 0 || At(balances, b) < amount || !collateralised
         || debts[b] + pending[b] < amount + MIN_TROVE_DEBT {
        return false;
      }
      AboveWith(debts, b, debts[b] + pending[b] - amount);
      Rewrite(debts, b, 0, debts[b] + pending[b] - amount);
      PayDown(b, b, amount);
      return true;
    }

    /** Burns the reserve of a trove together with its last debt and removes it. */
    method Erase(b: Address)
      requires totalSupply == activeDebt + defaultDebt && gasPool == LUSD_GAS_COMPENSATION * |debts|
      requires Held() && Owed(0) && pending.Keys == debts.Keys && b in debts && debts[b] == LUSD_GAS_COMPENSATION
      requires AboveMinimum(debts - {b})
      modifies this
      ensures Valid() && debts == old(debts) - {b} && pending == old(pending) - {b} && balances == old(balances)
      ensures totalSupply == old(totalSupply) - LUSD_GAS_COMPENSATION && stabilityPool == old(stabilityPool)
    {
      hide Sum, AboveMinimum;
      SumPut(debts, b, 0);
      RemoveTrove(b, 0);
      gasPool, totalSupply := gasPool - LUSD_GAS_COMPENSATION, totalSupply - LUSD_GAS_COMPENSATION;
      activeDebt := activeDebt - LUSD_GAS_COMPENSATION;
    }

    /** Redeems a lot of a trove's debt against the redeemer's LUSD; a trove left with its reserve is closed. */
    method RedeemFrom(redeemer: Address, b: Address, lot: nat) returns (ok: bool)
      requires Valid()
      modifies this
      ensures Valid()
      ensures ok <==> b in old(debts) && lot <= At(old(balances), redeemer)
                      && (var left := old(debts)[b] + old(pending)[b] - lot;
                          left >= MIN_TROVE_DEBT || (left == LUSD_GAS_COMPENSATION && |old(debts)| > 1))
      ensures if ok then var left := old(debts)[b] + old(pending)[b] - lot;
                         balances == old(balances)[redeemer := At(old(balances), redeemer) - lot]
                         && debts == (if left == LUSD_GAS_COMPENSATION then old(debts) - {b} else old(debts)[b := left])
                         && pending == (if left == LUSD_GAS_COMPENSATION then old(pending) - {b} else old(pending)[b := 0])
                         && totalSupply == old(totalSupply) - lot - (if left == LUSD_GAS_COMPENSATION then LUSD_GAS_COMPENSATION else 0)
              else unchanged(this)
    {
      hide Sum, Held, Owed, AboveMinimum;
      if b !in debts || At(balances, redeemer) < lot {
        return false;
      }
      var left := debts[b] + pending[b] - lot;
      if !(left >= MIN_TROVE_DEBT || (left == LUSD_GAS_COMPENSATION && |debts| > 1)) {
        return false;
      }
      AboveWithout(debts, {b});
      WriteThenRemove(debts, b, left);
      WriteThenRemove(pending, b, 0);
      if left >= MIN_TROVE_DEBT { AboveWith(debts, b, left); }
      PayDown(redeemer, b, lot);
      if left == LUSD_GAS_COMPENSATION {
        Erase(b);
      }
      return true;
    }

    /** Closing repays everything but the reserve from the owner's balance and burns the reserve. */
    method CloseTrove(b: Address) returns (ok: bool)
      requires Valid()
      modifies this
      ensures Valid()
      ensures ok <==> b in old(debts) && |old(debts)| > 1
                      && At(old(balances), b) >= old(debts)[b] + old(pending)[b] - LUSD_GAS_COMPENSATION
      ensures if ok then debts == old(debts) - {b} && pending == old(pending) - {b}
                         && totalSupply == old(totalSupply) - (old(debts)[b] + old(pending)[b])
                         && balances == old(balances)[b := At(old(balances), b) - (old(debts)[b] + old(pending)[b] - LUSD_GAS_COMPENSATION)]
              else unchanged(this)
    {
      hide Held, Owed;
      if b !in debts || |debts| <= 1 || At(balances, b) < debts[b] + pending[b] - LUSD_GAS_COMPENSATION {
        return false;
      }
      ok := RedeemFrom(b, b, debts[b] + pending[b] - LUSD_GAS_COMPENSATION);
    }

    /** Burns the part of `total` wei of liquidated debt that the stability pool covers and redistributes the rest. */
    method OffsetAndRedistribute(total: nat, shares: Amounts)
      requires totalSupply == activeDebt + defaultDebt && Held() && Owed(total)
      requires shares.Keys <= pending.Keys
      requires Sum(shares) <= total as real - MaxOffset() as real || shares == map[]
      modifies `stabilityPool, `totalSupply, `activeDebt, `defaultDebt, `pending
      ensures totalSupply == activeDebt + defaultDebt && Held() && Owed(0)
      ensures stabilityPool == old(stabilityPool) - Min(total, old(MaxOffset()))
      ensures totalSupply == old(totalSupply) - Min(total, old(MaxOffset()))
      ensures pending == Plus(old(pending), shares)
    {
      hide Sum;
      var offset := Min(total, MaxOffset());
      SumPlus(pending, shares);
      SumPut(debts, 0, 0);
      SumPut(balances, 0, 0);
      SumPut(pending, 0, 0);
      assert shares == map[] ==> Sum(shares) == 0.0 by { SumEmpty(); }
      stabilityPool, totalSupply := stabilityPool - offset, totalSupply - offset;
      activeDebt, defaultDebt := activeDebt - total, defaultDebt + (total - offset);
      pending := Plus(pending, shares);
    }

    method PayReserves(liquidator: Address, count: nat)
      requires Held() && gasPool >= LUSD_GAS_COMPENSATION * count
      modifies `balances, `gasPool
      ensures Held() && gasPool == old(gasPool) - LUSD_GAS_COMPENSATION * count
      ensures balances == old(balances)[liquidator := At(old(balances), liquidator) + LUSD_GAS_COMPENSATION * count]
    {
      hide Sum;
      var reward := LUSD_GAS_COMPENSATION * count;
      SumPut(balances, liquidator, At(balances, liquidator) + reward);
      gasPool, balances := gasPool - reward, balances[liquidator := At(balances, liquidator) + reward];
    }

    /** Takes one trove off the books with all it owes. */
    method TakeOff(b: Address, ghost floating: nat) returns (debt: nat)
      requires Owed(floating) && b in debts && b in pending
      modifies `activeDebt, `defaultDebt, `debts, `pending
      ensures debts == old(debts) - {b} && pending == old(pending) - {b} && |debts| == |old(debts)| - 1
      ensures debt == old(debts)[b] + old(pending)[b] && Owed(floating + debt)
      ensures activeDebt + defaultDebt == old(activeDebt + defaultDebt)
    {
      hide Sum, Owed;
      ApplyPending(b, floating);
      debt := debts[b];
      RemoveTrove(b, floating);
    }

    /** The active troves are those of `debts0` but `done`, and `total` is what the latter owed. */
    ghost predicate Progress(debts0: Amounts, pending0: Amounts, done: set<Address>, total: nat)
      reads `debts, `pending, `activeDebt, `defaultDebt
    {
      debts == debts0 - done && pending == pending0 - done && Owed(total)
      && total as real == Sum(EntireOf(debts0, pending0, done))
    }

    /** One turn of the batch loop: a trove that is closed or above the minimum ratio is passed over. */
    method Visit(b: Address, underwater: set<Address>, total: nat,
                 ghost debts0: Amounts, ghost pending0: Amounts, ghost done: set<Address>)
      returns (newTotal: nat)
      requires Progress(debts0, pending0, done, total) && pending0.Keys == debts0.Keys
      modifies `activeDebt, `defaultDebt, `debts, `pending
      ensures Progress(debts0, pending0, done + (if b in underwater && b in debts0 then {b} else {}), newTotal)
      ensures activeDebt + defaultDebt == old(activeDebt + defaultDebt)
    {
      hide Sum, Owed, EntireOf;
      newTotal := total;
      if b in debts && b in underwater {
        EntireAdd(debts0, pending0, done, b);
        WithoutBoth(debts0, done, b);
        WithoutBoth(pending0, done, b);
        var debt := TakeOff(b, total);
        newTotal := total + debt;
      } else if b in underwater && b in debts0 {
        assert done + {b} == done;
      } else {
        assert done + {} == done;
      }
    }

    /** Takes every listed trove below the minimum ratio off the books; the first mention counts. */
    method RemoveAll(list: seq<Address>, underwater: set<Address>) returns (total: nat)
      requires Valid()
      modifies `activeDebt, `defaultDebt, `debts, `pending
      ensures totalSupply == activeDebt + defaultDebt
      ensures Progress(old(debts), old(pending), old(Hits(list, underwater)), total)
    {
      hide Progress, HitsIn, Held;
      total := 0;
      ghost var done: set<Address>, debts0, pending0 := {}, debts, pending;
      HitsNone(list, underwater, debts);
      NoProgress();
      for i := 0 to |list|
        invariant done == HitsIn(list[..i], underwater, debts0)
        invariant totalSupply == activeDebt + defaultDebt
        invariant Progress(debts0, pending0, done, total)
      {
        HitsStep(list, i, underwater, debts0);
        total := Visit(list[i], underwater, total, debts0, pending0, done);
        done := HitsIn(list[..i + 1], underwater, debts0);
      }
      assert list[..|list|] == list;
    }

    lemma NoProgress()
      requires Owed(0)
      ensures Progress(debts, pending, {}, 0)
    {
      EntireOfNone(debts, pending);
    }

    /**
     Liquidates the listed troves that are below the minimum ratio. `shares` says how the
     redistributed debt falls on the remaining troves.
     */
    method BatchLiquidate(list: seq<Address>, underwater: set<Address>, liquidator: Address, shares: Amounts) returns (ok: bool)
      requires Valid() && shares.Keys !! Hits(list, underwater) && shares.Keys <= debts.Keys
      requires Sum(shares) <= Sum(EntireOf(debts, pending, Hits(list, underwater))) - MaxOffset() as real
               || shares == map[]
      modifies this
      ensures Valid()
      ensures ok <==> {} < old(Hits(list, underwater)) < old(debts).Keys
      ensures var hits := old(Hits(list, underwater));
              var entire := Sum(EntireOf(old(debts), old(pending), hits));
              var cap := old(MaxOffset()) as real;
              if ok then debts == old(debts) - hits && pending == Plus(old(pending) - hits, shares)
                         && (old(totalSupply) - totalSupply) as real == (if entire < cap then entire else cap)
                         && old(totalSupply) - totalSupply == old(stabilityPool) - stabilityPool
                         && balances == old(balances)[liquidator := At(old(balances), liquidator) + LUSD_GAS_COMPENSATION * |hits|]
              else unchanged(this)
      ensures ok ==> forall b :: b in debts <==> b in old(debts) && !(b in list && b in underwater)
      ensures ok <==> (exists b :: b in list && b in underwater && b in old(debts))
                      && exists b :: b in old(debts) && !(b in list && b in underwater)
      ensures stabilityPool <= old(stabilityPool) && (stabilityPool < old(stabilityPool) ==> stabilityPool >= MIN_LUSD_IN_SP)
      ensures ok && (old(totalSupply) - totalSupply) as real < Sum(EntireOf(old(debts), old(pending), old(Hits(list, underwater)))) ==>
                stabilityPool <= MIN_LUSD_IN_SP
    {
      hide Sum, Owed, Held, AboveMinimum, EntireOf, Plus, At;
      var hits := Hits(list, underwater);
      HitsAre(list, underwater, debts);
      if hits == {} || hits == debts.Keys {
        return false;
      }
      LeftOver(debts, pending, hits, shares);
      var total := RemoveAll(list, underwater);
      OffsetAndRedistribute(total, shares);
      PayReserves(liquidator, |hits|);
      return true;
    }

    method Transfer(from: Address, to: Address, amount: nat) returns (ok: bool)
      requires Valid()
      modifies `balances
      ensures Valid() && (ok <==> amount <= At(old(balances), from))
      ensures if ok then var paid := old(balances)[from := At(old(balances), from) - amount];
                         balances == paid[to := At(paid, to) + amount]
              else balances == old(balances)
    {
      hide Sum, Owed;
      if At(balances, from) < amount {
        return false;
      }
      SumMove(balances, from, to, amount);
      balances := balances[from := At(balances, from) - amount];
      balances := balances[to := At(balances, to) + amount];
      return true;
    }

    method ProvideToSP(depositor: Address, amount: nat) returns (ok: bool)
      requires Valid()
      modifies `balances, `stabilityPool
      ensures Valid() && (ok <==> 0 < amount <= At(old(balances), depositor))
      ensures stabilityPool == old(stabilityPool) + (if ok then amount else 0)
      ensures balances == if ok then old(balances)[depositor := At(old(balances), depositor) - amount] else old(balances)
    {
      hide Sum, Owed;
      if amount == 0 || At(balances, depositor) < amount {
        return false;
      }
      SumPut(balances, depositor, At(balances, depositor) - amount);
      balances, stabilityPool := balances[depositor := At(balances, depositor) - amount], stabilityPool + amount;
      return true;
    }

    /** Pays out at most the compounded deposit and never the pool's minimum. */
    method WithdrawFromSP(depositor: Address, amount: nat, deposit: nat) returns (paid: nat)
      requires Valid()
      modifies `balances, `stabilityPool
      ensures Valid() && paid == Min(Min(amount, old(MaxOffset())), deposit)
      ensures paid <= amount && paid <= deposit && (paid > 0 ==> stabilityPool >= MIN_LUSD_IN_SP)
      ensures paid < amount && paid < deposit ==> stabilityPool <= MIN_LUSD_IN_SP
      ensures stabilityPool == old(stabilityPool) - paid
      ensures balances == old(balances)[depositor := At(old(balances), depositor) + paid]
    {
      hide Sum, Owed;
      paid := Min(Min(amount, MaxOffset()), deposit);
      SumPut(balances, depositor, At(balances, depositor) + paid);
      balances, stabilityPool := balances[depositor := At(balances, depositor) + paid], stabilityPool - paid;
    }
  }
}
