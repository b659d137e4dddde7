/**
 Redistribution with corrected stakes, in exact arithmetic and at accumulated rates of one.

 A liquidation adds per-unit-staked terms to two running sums and leaves every other trove
 untouched; what a trove has earned stays pending until its next operation. `State` is the
 value of the contract's storage, the functions are its operations, and class `TroveManager`
 performs them in place.
 */
module Redistribution {
  import opened Accounts
  import opened Arithmetic

  datatype Trove = Trove(coll: real, debt: real, stake: real, collSnap: real, debtSnap: real)

  datatype State = State(
    troves: map<Address, Trove>,
    lColl: real, lDebt: real,
    totalStakes: real, stakesSnapshot: real, collSnapshot: real,
    activeColl: real, activeDebt: real, defaultColl: real, defaultDebt: real)

  /** One liquidated trove and the part of it that goes to the other troves. */
  datatype Cut = Cut(borrower: Address, coll: real, debt: real)

  /**
   A partial redemption is an adjustment that lowers both amounts, a full one closes the trove, and a
   cancelled one has only applied rewards.
   */
  datatype Op =
    | Open(borrower: Address, coll: real, debt: real)
    | ApplyRewards(borrower: Address)
    | Adjust(borrower: Address, collChange: real, debtChange: real)
    | Close(borrower: Address)
    | Liquidate(cuts: seq<Cut>)

  const EMPTY := State(map[], 0.0, 0.0, 0.0, 0.0, 0.0, 0.0, 0.0, 0.0, 0.0)

  // ----- what a trove holds

  function StakeOf(t: Trove): real { t.stake }
  function CollOf(t: Trove): real { t.coll }
  function DebtOf(t: Trove): real { t.debt }
  function PendingCollAt(lColl: real): Trove -> real { (t: Trove) => t.stake * (lColl - t.collSnap) }
  function PendingDebtAt(lDebt: real): Trove -> real { (t: Trove) => t.stake * (lDebt - t.debtSnap) }

  function PendingColl(s: State, b: Address): real
    requires b in s.troves
  {
    PendingCollAt(s.lColl)(s.troves[b])
  }

  function PendingDebt(s: State, b: Address): real
    requires b in s.troves
  {
    PendingDebtAt(s.lDebt)(s.troves[b])
  }

  function EntireColl(s: State, b: Address): real
    requires b in s.troves
  {
    s.troves[b].coll + PendingColl(s, b)
  }

  function EntireDebt(s: State, b: Address): real
    requires b in s.troves
  {
    s.troves[b].debt + PendingDebt(s, b)
  }

  /** The ratio `coll / debt` is strictly above the ratio `coll2 / debt2`. */
  predicate Exceeds(coll: real, debt: real, coll2: real, debt2: real) {
    coll * debt2 > coll2 * debt
  }

  /** Trove `a` has a strictly higher nominal collateral ratio than trove `b`. */
  predicate Above(s: State, a: Address, b: Address)
    requires a in s.troves && b in s.troves
  {
    Exceeds(EntireColl(s, a), EntireDebt(s, a), EntireColl(s, b), EntireDebt(s, b))
  }

  /** Stake per unit of collateral handed to a new or adjusted trove. */
  function Rate(s: State): real {
    RateOf(s.stakesSnapshot, s.collSnapshot)
  }

  function RateOf(stakes: real, coll: real): real {
    if coll == 0.0 then 1.0 else stakes / coll
  }

  // ----- operations

  /** Moves what a trove has earned from the default pool into the trove. */
  function Apply(s: State, b: Address): State
    requires b in s.troves
  {
    var t := s.troves[b];
    if t.collSnap < s.lColl then
      var c, d := PendingColl(s, b), PendingDebt(s, b);
      s.(troves := s.troves[b := Trove(t.coll + c, t.debt + d, t.stake, s.lColl, s.lDebt)],
         activeColl := s.activeColl + c, activeDebt := s.activeDebt + d,
         defaultColl := s.defaultColl - c, defaultDebt := s.defaultDebt - d)
    else s
  }

  /** The corrected stake of `b`, from its collateral and the latest snapshots. */
  function Restaked(s: State, b: Address): State
    requires b in s.troves
  {
    var t := s.troves[b];
    var stake := Rate(s) * t.coll;
    s.(troves := s.troves[b := t.(stake := stake)], totalStakes := s.totalStakes - t.stake + stake)
  }

  /** Gives trove `b` new amounts, in the active pool too, and the corrected stake that goes with them. */
  function Write(s: State, b: Address, coll: real, debt: real): State
    requires b in s.troves
  {
    var t := s.troves[b];
    Restaked(s.(troves := s.troves[b := t.(coll := coll, debt := debt)],
                activeColl := s.activeColl - t.coll + coll, activeDebt := s.activeDebt - t.debt + debt), b)
  }

  function Opened(s: State, b: Address, coll: real, debt: real): State {
    if b in s.troves || coll <= 0.0 || debt <= 0.0 then s
    else Write(s.(troves := s.troves[b := Trove(0.0, 0.0, 0.0, s.lColl, s.lDebt)]), b, coll, debt)
  }

  function Adjusted(s: State, b: Address, collChange: real, debtChange: real): State {
    if b !in s.troves || EntireColl(s, b) + collChange <= 0.0 || EntireDebt(s, b) + debtChange <= 0.0 then s
    else
      var applied := Apply(s, b);
      var t := applied.troves[b];
      Write(applied, b, t.coll + collChange, t.debt + debtChange)
  }

  /** Takes a trove and everything it is owed out of the system. */
  function Drop(s: State, b: Address): State
    requires b in s.troves
  {
    var t := s.troves[b];
    s.(troves := s.troves - {b}, totalStakes := s.totalStakes - t.stake,
       activeColl := s.activeColl - t.coll, activeDebt := s.activeDebt - t.debt,
       defaultColl := s.defaultColl - PendingColl(s, b), defaultDebt := s.defaultDebt - PendingDebt(s, b))
  }

  function Closed(s: State, b: Address): State {
    if b !in s.troves || |s.troves| <= 1 then s else Drop(s, b)
  }

  /** A cut takes at most what the trove holds, and takes collateral exactly when it takes debt. */
  predicate CutFits(s: State, c: Cut) {
    c.borrower in s.troves
    && 0.0 <= c.coll <= EntireColl(s, c.borrower) && 0.0 <= c.debt <= EntireDebt(s, c.borrower)
    && (c.coll == 0.0 <==> c.debt == 0.0)
  }

  predicate CutsFit(s: State, cuts: seq<Cut>)
    decreases |cuts|
  {
    cuts == [] || (|s.troves| > 1 && CutFits(s, cuts[0]) && CutsFit(Drop(s, cuts[0].borrower), cuts[1..]))
  }

  function DropAll(s: State, cuts: seq<Cut>): State
    requires CutsFit(s, cuts)
    decreases |cuts|
  {
    if cuts == [] then s else DropAll(Drop(s, cuts[0].borrower), cuts[1..])
  }

  function CutColl(cuts: seq<Cut>): real {
    if cuts == [] then 0.0 else cuts[0].coll + CutColl(cuts[1..])
  }

  function CutDebt(cuts: seq<Cut>): real {
    if cuts == [] then 0.0 else cuts[0].debt + CutDebt(cuts[1..])
  }

  /** Spreads an amount over all stakes and parks it in the default pool. */
  function Redistribute(s: State, coll: real, debt: real): State
    requires s.totalStakes > 0.0
  {
    if debt == 0.0 then s
    else s.(lColl := s.lColl + coll / s.totalStakes, lDebt := s.lDebt + debt / s.totalStakes,
            defaultColl := s.defaultColl + coll, defaultDebt := s.defaultDebt + debt)
  }

  function Snapshot(s: State): State {
    s.(stakesSnapshot := s.totalStakes, collSnapshot := s.activeColl + s.defaultColl)
  }

  /** Liquidates a batch: all its troves leave first, then their cuts are spread in one step. */
  function LiquidateBatch(s: State, cuts: seq<Cut>): State {
    if CarriedOut(s, cuts) then Snapshot(Redistribute(DropAll(s, cuts), CutColl(cuts), CutDebt(cuts))) else s
  }

  /** A batch is carried out when there is one, every cut fits its trove at its turn, and a stake remains. */
  predicate CarriedOut(s: State, cuts: seq<Cut>) {
    cuts != [] && CutsFit(s, cuts) && DropAll(s, cuts).totalStakes > 0.0
  }

  function Applied(s: State, b: Address): State {
    if b in s.troves then Apply(s, b) else s
  }

  function Step(s: State, op: Op): State {
    match op
    case Open(b, c, d) => Opened(s, b, c, d)
    case ApplyRewards(b) => Applied(s, b)
    case Adjust(b, c, d) => Adjusted(s, b, c, d)
    case Close(b) => Closed(s, b)
    case Liquidate(cuts) => LiquidateBatch(s, cuts)
  }

  function Run(s: State, ops: seq<Op>): State
    decreases |ops|
  {
    if ops == [] then s else Run(Step(s, ops[0]), ops[1..])
  }

  // ----- the invariant

  ghost function Column(troves: map<Address, Trove>, f: Trove -> real): map<Address, real> {
    map b | b in troves :: f(troves[b])
  }

  ghost function Sum(troves: map<Address, Trove>, f: Trove -> real): real {
    Total(Column(troves, f))
  }

  lemma SumPut(troves: map<Address, Trove>, b: Address, t: Trove, f: Trove -> real)
    ensures Sum(troves[b := t], f) == Sum(troves, f) + f(t) - (if b in troves then f(troves[b]) else 0.0)
  {
    assert Column(troves[b := t], f) == Column(troves, f)[b := f(t)];
    TotalUpdate(Column(troves, f), b, f(t));
  }

  lemma SumDrop(troves: map<Address, Trove>, b: Address, f: Trove -> real)
    requires b in troves
    ensures Sum(troves - {b}, f) == Sum(troves, f) - f(troves[b])
  {
    assert Column(troves - {b}, f) == Column(troves, f) - {b};
    TotalSplit(Column(troves, f), b);
  }

  /** Positive amounts, current or older snapshots, and a stake in the system-wide ratio. */
  ghost predicate TroveOk(s: State, b: Address)
    requires b in s.troves
  {
    var t := s.troves[b];
    t.coll > 0.0 && t.debt > 0.0 && t.stake > 0.0
    && t.collSnap <= s.lColl && t.debtSnap <= s.lDebt && (t.collSnap == s.lColl ==> t.debtSnap == s.lDebt)
    && Times(t.stake, Rate(s), EntireColl(s, b))
  }

  /** The recorded totals are the sums they stand for: no dust, nothing missing. */
  ghost predicate Balanced(s: State) {
    s.totalStakes == Sum(s.troves, StakeOf)
    && s.activeColl == Sum(s.troves, CollOf) && s.activeDebt == Sum(s.troves, DebtOf)
    && s.defaultColl == Sum(s.troves, PendingCollAt(s.lColl)) && s.defaultDebt == Sum(s.troves, PendingDebtAt(s.lDebt))
  }

  ghost predicate Inv(s: State) {
    (forall b | b in s.troves :: TroveOk(s, b))
    && Balanced(s)
    && (s.collSnapshot == 0.0 || (s.collSnapshot > 0.0 && s.stakesSnapshot > 0.0))
  }

  lemma RatePositive(s: State)
    requires Inv(s)
    ensures Rate(s) > 0.0
  {
  }

  lemma EmptyInv()
    ensures Inv(EMPTY)
  {
  }

  /** Replacing or adding one trove, at unchanged running sums, changes each total by that trove's share. */
  lemma PutBalanced(s: State, b: Address, t: Trove)
    ensures Balanced(s) ==> Balanced(Put(s, b, t))
  {
    NothingPending(s.lColl, s.lDebt);
    hide Sum, PendingCollAt, PendingDebtAt;
    SumPut(s.troves, b, t, StakeOf);
    SumPut(s.troves, b, t, CollOf);
    SumPut(s.troves, b, t, DebtOf);
    SumPut(s.troves, b, t, PendingCollAt(s.lColl));
    SumPut(s.troves, b, t, PendingDebtAt(s.lDebt));
  }

  lemma NothingPending(lColl: real, lDebt: real)
    ensures var t := Trove(0.0, 0.0, 0.0, lColl, lDebt);
            PendingCollAt(lColl)(t) == 0.0 && PendingDebtAt(lDebt)(t) == 0.0
  {
  }

  /** Stores a trove and books the difference to every total. */
  ghost function Put(s: State, b: Address, t: Trove): State {
    var was := if b in s.troves then s.troves[b] else Trove(0.0, 0.0, 0.0, s.lColl, s.lDebt);
    s.(troves := s.troves[b := t],
       totalStakes := s.totalStakes + t.stake - was.stake,
       activeColl := s.activeColl + t.coll - was.coll,
       activeDebt := s.activeDebt + t.debt - was.debt,
       defaultColl := s.defaultColl + PendingCollAt(s.lColl)(t) - PendingCollAt(s.lColl)(was),
       defaultDebt := s.defaultDebt + PendingDebtAt(s.lDebt)(t) - PendingDebtAt(s.lDebt)(was))
  }

  lemma DropBalanced(s: State, b: Address)
    requires Balanced(s) && b in s.troves
    ensures Balanced(Drop(s, b))
  {
    SumDrop(s.troves, b, StakeOf);
    SumDrop(s.troves, b, CollOf);
    SumDrop(s.troves, b, DebtOf);
    SumDrop(s.troves, b, PendingCollAt(s.lColl));
    SumDrop(s.troves, b, PendingDebtAt(s.lDebt));
  }

  /** Same record, same amounts owed: the trove was not touched. */
  ghost predicate Unchanged(s: State, r: State, b: Address) {
    b in s.troves && b in r.troves && r.troves[b] == s.troves[b] && r.lColl == s.lColl && r.lDebt == s.lDebt
  }

  /** Every trove but `b` is as it was. */
  ghost predicate OthersUnchanged(s: State, r: State, b: Address) {
    (forall x | x != b :: x in r.troves <==> x in s.troves)
    && s.stakesSnapshot == r.stakesSnapshot && s.collSnapshot == r.collSnapshot
    && forall x | x in s.troves && x != b :: Unchanged(s, r, x)
  }

  /** An invariant state stays one if only `b` changed, `b` is in order and the books balance. */
  lemma OneTroveInv(s: State, r: State, b: Address)
    requires OthersUnchanged(s, r, b) && Balanced(r)
    requires forall x | x in s.troves && x != b :: TroveOk(s, x)
    requires b in r.troves ==> TroveOk(r, b)
    requires s.collSnapshot == 0.0 || (s.collSnapshot > 0.0 && s.stakesSnapshot > 0.0)
    ensures Inv(r)
  {
    hide Times, RateOf, PendingCollAt, PendingDebtAt, Sum;
    forall x | x in r.troves ensures TroveOk(r, x) {
      if x != b {
        assert x in s.troves && TroveOk(s, x) && Unchanged(s, r, x);
      }
    }
  }

  lemma DropInv(s: State, b: Address)
    requires Inv(s) && b in s.troves
    ensures Inv(Drop(s, b)) && OthersUnchanged(s, Drop(s, b), b)
  {
    hide Times, RateOf, PendingCollAt, PendingDebtAt, Sum;
    DropBalanced(s, b);
    OneTroveInv(s, Drop(s, b), b);
  }

  /** A trove that has just been paid: nothing is pending. */
  ghost predicate Settled(s: State, b: Address) {
    b in s.troves && s.troves[b].collSnap == s.lColl && s.troves[b].debtSnap == s.lDebt
  }

  lemma SettledHolds(s: State, b: Address)
    requires Settled(s, b)
    ensures PendingColl(s, b) == 0.0 && PendingDebt(s, b) == 0.0
    ensures EntireColl(s, b) == s.troves[b].coll && EntireDebt(s, b) == s.troves[b].debt
  {
  }

  lemma ApplyInv(s: State, b: Address)
    requires Inv(s) && b in s.troves
    ensures var r := Apply(s, b);
            Inv(r) && OthersUnchanged(s, r, b) && Settled(r, b)
            && r.troves[b].coll == EntireColl(s, b) && r.troves[b].debt == EntireDebt(s, b)
  {
    hide Times, RateOf, PendingCollAt, PendingDebtAt, Sum;
    var r := Apply(s, b);
    assert TroveOk(s, b);
    SettledHolds(r, b);
    EarnedNonNegative(s, b);
    if s.troves[b].collSnap < s.lColl {
      assert r == Put(s, b, r.troves[b]);
      PutBalanced(s, b, r.troves[b]);
    } else {
      SettledHolds(s, b);
    }
    OneTroveInv(s, r, b);
  }

  lemma EarnedNonNegative(s: State, b: Address)
    requires b in s.troves && TroveOk(s, b)
    ensures PendingColl(s, b) >= 0.0 && PendingDebt(s, b) >= 0.0
  {
    hide Times, RateOf;
    Product(s.troves[b].stake, s.lColl - s.troves[b].collSnap);
    Product(s.troves[b].stake, s.lDebt - s.troves[b].debtSnap);
  }

  /** A settled trove can be given any positive amounts. */
  lemma WriteInv(s: State, b: Address, coll: real, debt: real)
    requires Balanced(s) && Settled(s, b) && coll > 0.0 && debt > 0.0
    requires s.collSnapshot == 0.0 || (s.collSnapshot > 0.0 && s.stakesSnapshot > 0.0)
    requires forall x | x in s.troves && x != b :: TroveOk(s, x)
    ensures var r := Write(s, b, coll, debt);
            Inv(r) && OthersUnchanged(s, r, b)
            && EntireColl(r, b) == coll && EntireDebt(r, b) == debt
  {
    hide Times, RateOf, PendingCollAt, PendingDebtAt, Sum;
    var r := Write(s, b, coll, debt);
    WriteBalanced(s, b, coll, debt);
    NewStake(s, coll);
    SettledHolds(r, b);
    assert r.troves[b].stake == Rate(s) * coll && Rate(r) == Rate(s);
    assert TroveOk(r, b);
    OneTroveInv(s, r, b);
  }

  lemma WriteBalanced(s: State, b: Address, coll: real, debt: real)
    requires Balanced(s) && Settled(s, b)
    ensures Balanced(Write(s, b, coll, debt))
  {
    hide Times, RateOf, PendingCollAt, PendingDebtAt, Sum;
    var r := Write(s, b, coll, debt);
    SettledHolds(s, b);
    SettledHolds(r, b);
    PutBalanced(s, b, r.troves[b]);
    assert r == Put(s, b, r.troves[b]);
  }

  lemma NewStake(s: State, coll: real)
    requires coll > 0.0
    requires s.collSnapshot == 0.0 || (s.collSnapshot > 0.0 && s.stakesSnapshot > 0.0)
    ensures Rate(s) > 0.0 && Rate(s) * coll > 0.0 && Times(Rate(s) * coll, Rate(s), coll)
  {
  }

  lemma OpenInv(s: State, b: Address, coll: real, debt: real)
    requires Inv(s)
    ensures var r := Opened(s, b, coll, debt);
            Inv(r) && OthersUnchanged(s, r, b)
  {
    hide Times, RateOf, PendingCollAt, PendingDebtAt, Sum;
    if b !in s.troves && coll > 0.0 && debt > 0.0 {
      var p := s.(troves := s.troves[b := Trove(0.0, 0.0, 0.0, s.lColl, s.lDebt)]);
      PutBalanced(s, b, p.troves[b]);
      assert p == Put(s, b, p.troves[b]);
      forall x | x in p.troves && x != b ensures TroveOk(p, x) {
        assert TroveOk(s, x);
      }
      WriteInv(p, b, coll, debt);
    }
  }

  lemma AdjustInv(s: State, b: Address, collChange: real, debtChange: real)
    requires Inv(s)
    ensures var r := Adjusted(s, b, collChange, debtChange);
            Inv(r) && OthersUnchanged(s, r, b)
  {
    hide Times, RateOf, PendingCollAt, PendingDebtAt, Sum;
    if b in s.troves && EntireColl(s, b) + collChange > 0.0 && EntireDebt(s, b) + debtChange > 0.0 {
      ApplyInv(s, b);
      var p := Apply(s, b);
      WriteInv(p, b, p.troves[b].coll + collChange, p.troves[b].debt + debtChange);
    }
  }

  /** A new trove holds what it was opened with, at any running sums, and the pools hold that much more. */
  lemma OpenGives(s: State, b: Address, coll: real, debt: real)
    requires b !in s.troves && coll > 0.0 && debt > 0.0
    ensures var r := Opened(s, b, coll, debt);
            b in r.troves && EntireColl(r, b) == coll && EntireDebt(r, b) == debt
            && r.activeColl == s.activeColl + coll && r.activeDebt == s.activeDebt + debt
            && r.defaultColl == s.defaultColl && r.defaultDebt == s.defaultDebt
  {
    hide PendingCollAt, PendingDebtAt, Rate;
    SettledHolds(Opened(s, b, coll, debt), b);
  }

  /** Paying a trove what is pending changes neither what it holds nor what the pools hold together. */
  lemma ApplyGives(s: State, b: Address)
    requires Inv(s) && b in s.troves
    ensures var r := Step(s, ApplyRewards(b));
            r == Apply(s, b) && b in r.troves && EntireColl(r, b) == EntireColl(s, b) && EntireDebt(r, b) == EntireDebt(s, b)
            && PendingColl(r, b) == 0.0 && PendingDebt(r, b) == 0.0
            && r.activeColl + r.defaultColl == s.activeColl + s.defaultColl
            && r.activeDebt + r.defaultDebt == s.activeDebt + s.defaultDebt
  {
    ApplyInv(s, b);
    hide Inv, PendingCollAt, PendingDebtAt;
    SettledHolds(Apply(s, b), b);
  }

  /** An adjustment changes what its trove holds, and what the pools hold, by the two changes and nothing else. */
  lemma AdjustGives(s: State, b: Address, collChange: real, debtChange: real)
    requires Inv(s) && b in s.troves && EntireColl(s, b) + collChange > 0.0 && EntireDebt(s, b) + debtChange > 0.0
    ensures var r := Adjusted(s, b, collChange, debtChange);
            b in r.troves && EntireColl(r, b) == EntireColl(s, b) + collChange && EntireDebt(r, b) == EntireDebt(s, b) + debtChange
            && r.activeColl + r.defaultColl == s.activeColl + s.defaultColl + collChange
            && r.activeDebt + r.defaultDebt == s.activeDebt + s.defaultDebt + debtChange
  {
    ApplyGives(s, b);
    ApplyInv(s, b);
    hide Inv, PendingCollAt, PendingDebtAt, Rate;
    SettledHolds(Adjusted(s, b, collChange, debtChange), b);
  }

  /** A closed trove takes with it exactly what it holds. */
  lemma CloseGives(s: State, b: Address)
    requires b in s.troves && |s.troves| > 1
    ensures var r := Closed(s, b);
            r.troves.Keys == s.troves.Keys - {b}
            && r.activeColl + r.defaultColl == s.activeColl + s.defaultColl - EntireColl(s, b)
            && r.activeDebt + r.defaultDebt == s.activeDebt + s.defaultDebt - EntireDebt(s, b)
  {
    hide PendingCollAt, PendingDebtAt;
  }

  lemma {:induction false} DropAllInv(s: State, cuts: seq<Cut>)
    requires Inv(s) && CutsFit(s, cuts)
    ensures var r := DropAll(s, cuts);
            Inv(r) && r.troves.Keys <= s.troves.Keys
            && (forall x | x in r.troves :: Unchanged(s, r, x))
            && (s.troves != map[] ==> r.troves != map[])
    ensures CutColl(cuts) >= 0.0 && CutDebt(cuts) >= 0.0 && (CutColl(cuts) == 0.0 <==> CutDebt(cuts) == 0.0)
    decreases |cuts|
  {
    hide Times, RateOf, PendingCollAt, PendingDebtAt, Sum;
    if cuts != [] {
      DropInv(s, cuts[0].borrower);
      var d := Drop(s, cuts[0].borrower);
      assert |d.troves.Keys| == |s.troves.Keys| - 1;
      DropAllInv(d, cuts[1..]);
    }
  }

  /** The recorded stakes are the same multiple of the recorded collateral of the whole system. */
  lemma TotalRate(s: State)
    requires Inv(s)
    ensures Times(s.totalStakes, Rate(s), s.activeColl + s.defaultColl)
  {
    hide Times, RateOf, PendingCollAt, PendingDebtAt, Total;
    var stakes, colls, pend := Column(s.troves, StakeOf), Column(s.troves, CollOf), Column(s.troves, PendingCollAt(s.lColl));
    var entire := map b | b in s.troves :: EntireColl(s, b);
    TotalAdd(entire, colls, pend);
    forall b | b in s.troves ensures Times(stakes[b], Rate(s), entire[b]) {
      assert TroveOk(s, b);
    }
    TotalTimes(stakes, Rate(s), entire);
  }

  lemma StakesPositive(s: State)
    requires Inv(s) && s.troves != map[]
    ensures s.totalStakes > 0.0
  {
    hide Times, RateOf, PendingCollAt, PendingDebtAt, Total;
    var stakes := Column(s.troves, StakeOf);
    assert forall b | b in s.troves :: TroveOk(s, b);
    TotalNonNegative(stakes);
    var b :| b in s.troves;
    assert stakes[b] > 0.0;
  }

  // ----- redistribution

  /** One trove's stake keeps the system-wide ratio when the collateral grows by `stake * coll / total`. */
  lemma SpreadRate(rate: real, total: real, system: real, coll: real, entire: real, stake: real, after: real, later: real)
    requires rate > 0.0 && total > 0.0 && coll >= 0.0
    requires Times(total, rate, system) && Times(stake, rate, entire)
    requires after == system + coll && later == entire + stake * (coll / total)
    ensures system > 0.0 && RateOf(total, after) > 0.0
    ensures Times(stake, RateOf(total, after), later)
  {
  }

  /** Raising a running sum by `k` adds `k` per unit of stake to what is pending. */
  lemma PendingGrows(t: Trove, l: real, k: real)
    ensures PendingCollAt(l + k)(t) == PendingCollAt(l)(t) + t.stake * k
    ensures PendingDebtAt(l + k)(t) == PendingDebtAt(l)(t) + t.stake * k
  {
  }

  lemma PendingTotalGrows(troves: map<Address, Trove>, l: real, k: real, f: real -> Trove -> real)
    requires f == PendingCollAt || f == PendingDebtAt
    ensures Sum(troves, f(l + k)) == Sum(troves, f(l)) + k * Sum(troves, StakeOf)
  {
    hide Total, PendingCollAt, PendingDebtAt;
    var share := map b | b in troves :: troves[b].stake * k;
    forall b | b in troves ensures f(l + k)(troves[b]) == f(l)(troves[b]) + share[b] {
      PendingGrows(troves[b], l, k);
    }
    TotalAdd(Column(troves, f(l + k)), Column(troves, f(l)), share);
    ShareTotal(troves, k, share);
  }

  lemma ShareTotal(troves: map<Address, Trove>, k: real, share: map<Address, real>)
    requires share == map b | b in troves :: troves[b].stake * k
    ensures Total(share) == k * Sum(troves, StakeOf)
  {
    hide Total;
    TotalTimes(share, k, Column(troves, StakeOf));
  }

  /** The state after a batch, given the state without the liquidated troves. */
  ghost predicate Spread(s: State, r: State, coll: real, debt: real) {
    s.totalStakes > 0.0 && r.troves == s.troves
    && (forall b | b in s.troves ::
      EntireColl(r, b) == EntireColl(s, b) + s.troves[b].stake * (coll / s.totalStakes)
      && EntireDebt(r, b) == EntireDebt(s, b) + s.troves[b].stake * (debt / s.totalStakes))
  }

  lemma SpreadHolds(s: State, coll: real, debt: real)
    requires s.totalStakes > 0.0 && (coll == 0.0 <==> debt == 0.0)
    ensures Spread(s, Redistribute(s, coll, debt), coll, debt)
  {
    hide PendingCollAt, PendingDebtAt;
    var c, d := coll / s.totalStakes, debt / s.totalStakes;
    forall b | b in s.troves
      ensures EntireColl(Redistribute(s, coll, debt), b) == EntireColl(s, b) + s.troves[b].stake * c
      ensures EntireDebt(Redistribute(s, coll, debt), b) == EntireDebt(s, b) + s.troves[b].stake * d
    {
      PendingGrows(s.troves[b], s.lColl, c);
      PendingGrows(s.troves[b], s.lDebt, d);
    }
  }

  lemma RedistributeBalanced(s: State, coll: real, debt: real)
    requires Balanced(s) && s.totalStakes > 0.0
    ensures Balanced(Redistribute(s, coll, debt))
  {
    hide PendingCollAt, PendingDebtAt, Sum;
    if debt != 0.0 {
      PendingTotalGrows(s.troves, s.lColl, coll / s.totalStakes, PendingCollAt);
      PendingTotalGrows(s.troves, s.lDebt, debt / s.totalStakes, PendingDebtAt);
      Quotient(coll, s.totalStakes);
      Quotient(debt, s.totalStakes);
    }
  }

  /** Any trove of the system after the redistribution is in order again. */
  lemma SpreadTroveOk(s: State, coll: real, debt: real, b: Address)
    requires Inv(s) && b in s.troves && coll >= 0.0 && debt >= 0.0 && (coll == 0.0 <==> debt == 0.0)
    ensures s.totalStakes > 0.0
    ensures var r := Snapshot(Redistribute(s, coll, debt));
            TroveOk(r, b) && r.collSnapshot > 0.0
  {
    hide Times, RateOf, PendingCollAt, PendingDebtAt, Sum;
    StakesPositive(s);
    RatePositive(s);
    TotalRate(s);
    assert TroveOk(s, b);
    var r := Snapshot(Redistribute(s, coll, debt));
    assert r.collSnapshot == s.activeColl + s.defaultColl + coll;
    SpreadHolds(s, coll, debt);
    SnapshotSpread(Redistribute(s, coll, debt));
    assert EntireColl(r, b) == EntireColl(s, b) + s.troves[b].stake * (coll / s.totalStakes);
    SpreadRate(Rate(s), s.totalStakes, s.activeColl + s.defaultColl, coll, EntireColl(s, b), s.troves[b].stake,
               r.collSnapshot, EntireColl(r, b));
    Quotient(coll, s.totalStakes);
    Quotient(debt, s.totalStakes);
    assert Rate(r) == RateOf(s.totalStakes, r.collSnapshot);
  }

  lemma RedistributeInv(s: State, coll: real, debt: real)
    requires Inv(s) && s.troves != map[] && coll >= 0.0 && debt >= 0.0 && (coll == 0.0 <==> debt == 0.0)
    ensures s.totalStakes > 0.0
    ensures var r := Snapshot(Redistribute(s, coll, debt));
            Inv(r) && Spread(s, r, coll, debt)
  {
    hide Times, RateOf, PendingCollAt, PendingDebtAt, Sum, TroveOk;
    var b :| b in s.troves;
    SpreadTroveOk(s, coll, debt, b);
    var r := Snapshot(Redistribute(s, coll, debt));
    SpreadHolds(s, coll, debt);
    RedistributeBalanced(s, coll, debt);
    SnapshotSpread(Redistribute(s, coll, debt));
    forall b | b in r.troves ensures TroveOk(r, b) {
      SpreadTroveOk(s, coll, debt, b);
    }
  }

  lemma SnapshotSpread(p: State)
    ensures forall b | b in p.troves ::
              EntireColl(Snapshot(p), b) == EntireColl(p, b) && EntireDebt(Snapshot(p), b) == EntireDebt(p, b)
    ensures Balanced(p) ==> Balanced(Snapshot(p))
  {
  }

  // ----- every step, every run

  lemma BatchInv(s: State, cuts: seq<Cut>)
    requires Inv(s)
    ensures Inv(LiquidateBatch(s, cuts))
    ensures LiquidateBatch(s, cuts) != s ==>
              CutsFit(s, cuts) && Inv(DropAll(s, cuts)) && Spread(DropAll(s, cuts), LiquidateBatch(s, cuts), CutColl(cuts), CutDebt(cuts))
  {
    hide Times, RateOf, PendingCollAt, PendingDebtAt, Sum, TroveOk;
    if cuts != [] && CutsFit(s, cuts) {
      DropAllInv(s, cuts);
      RedistributeInv(DropAll(s, cuts), CutColl(cuts), CutDebt(cuts));
    }
  }

  predicate AllIn(s: State, cuts: seq<Cut>) {
    forall i | 0 <= i < |cuts| :: cuts[i].borrower in s.troves
  }

  /** What the troves of a batch hold beyond what is redistributed. */
  ghost function LeavingColl(s: State, cuts: seq<Cut>): real
    requires AllIn(s, cuts)
    decreases |cuts|
  {
    if cuts == [] then 0.0 else
      assert AllIn(s, cuts[1..]) by { assert forall i | 0 <= i < |cuts[1..]| :: cuts[1..][i] == cuts[i + 1]; }
      EntireColl(s, cuts[0].borrower) - cuts[0].coll + LeavingColl(s, cuts[1..])
  }

  ghost function LeavingDebt(s: State, cuts: seq<Cut>): real
    requires AllIn(s, cuts)
    decreases |cuts|
  {
    if cuts == [] then 0.0 else
      assert AllIn(s, cuts[1..]) by { assert forall i | 0 <= i < |cuts[1..]| :: cuts[1..][i] == cuts[i + 1]; }
      EntireDebt(s, cuts[0].borrower) - cuts[0].debt + LeavingDebt(s, cuts[1..])
  }

  /** The troves of a batch are gone, and the pools have lost what they held. */
  lemma {:induction false} DropAllGives(s: State, cuts: seq<Cut>)
    requires CutsFit(s, cuts)
    ensures AllIn(s, cuts) && forall x :: x in DropAll(s, cuts).troves <==> x in s.troves && !Touches(Liquidate(cuts), x)
    ensures var r := DropAll(s, cuts);
            r.activeColl + r.defaultColl + CutColl(cuts) == s.activeColl + s.defaultColl - LeavingColl(s, cuts)
            && r.activeDebt + r.defaultDebt + CutDebt(cuts) == s.activeDebt + s.defaultDebt - LeavingDebt(s, cuts)
    decreases |cuts|
  {
    hide PendingCollAt, PendingDebtAt;
    if cuts != [] {
      var d := Drop(s, cuts[0].borrower);
      DropAllGives(d, cuts[1..]);
      assert forall i | 0 <= i < |cuts[1..]| :: cuts[1..][i] == cuts[i + 1];
      SameLeaving(s, d, cuts[1..]);
      forall x ensures Touches(Liquidate(cuts), x) <==> x == cuts[0].borrower || Touches(Liquidate(cuts[1..]), x) {
        TouchesSplit(cuts, x);
      }
    }
  }

  predicate NoneTwice(cuts: seq<Cut>) {
    forall i, j | 0 <= i < j < |cuts| :: cuts[i].borrower != cuts[j].borrower
  }

  /** A cut is within what the trove holds in this state, and takes collateral exactly if it takes debt. */
  predicate WithinOne(s: State, c: Cut) {
    c.borrower in s.troves && 0.0 <= c.coll <= EntireColl(s, c.borrower)
    && 0.0 <= c.debt <= EntireDebt(s, c.borrower) && (c.coll == 0.0 <==> c.debt == 0.0)
  }

  predicate Within(s: State, cuts: seq<Cut>) {
    forall i | 0 <= i < |cuts| :: WithinOne(s, cuts[i])
  }

  lemma {:induction false} FitExactly(s: State, cuts: seq<Cut>)
    ensures CutsFit(s, cuts) <==> (cuts == [] || |cuts| < |s.troves|) && NoneTwice(cuts) && Within(s, cuts)
    decreases |cuts|
  {
    hide EntireColl, EntireDebt, NoneTwice, Within;
    if cuts == [] {
      NoCuts(s);
    } else if cuts[0].borrower in s.troves {
      var d := Drop(s, cuts[0].borrower);
      assert |d.troves.Keys| == |s.troves.Keys| - 1;
      FitExactly(d, cuts[1..]);
      FirstCut(s, d, cuts);
    } else {
      NotWithin(s, cuts);
    }
  }

  lemma NoCuts(s: State)
    ensures NoneTwice([]) && Within(s, [])
  {
  }

  lemma NotWithin(s: State, cuts: seq<Cut>)
    requires cuts != [] && cuts[0].borrower !in s.troves
    ensures !Within(s, cuts)
  {
    hide EntireColl, EntireDebt;
  }

  lemma FirstCut(s: State, d: State, cuts: seq<Cut>)
    requires cuts != [] && cuts[0].borrower in s.troves && d == Drop(s, cuts[0].borrower)
    ensures NoneTwice(cuts) && Within(s, cuts) <==> CutFits(s, cuts[0]) && NoneTwice(cuts[1..]) && Within(d, cuts[1..])
  {
    DropKeeps(s, cuts[0].borrower);
    hide EntireColl, EntireDebt, Drop;
    if NoneTwice(cuts) && Within(s, cuts) {
      forall i | 0 <= i < |cuts[1..]| ensures WithinOne(d, cuts[1..][i]) {
        assert cuts[1..][i] == cuts[i + 1] && WithinOne(s, cuts[i + 1]);
      }
    }
    if CutFits(s, cuts[0]) && NoneTwice(cuts[1..]) && Within(d, cuts[1..]) {
      forall i | 0 <= i < |cuts| ensures WithinOne(s, cuts[i]) && (i > 0 ==> cuts[i].borrower != cuts[0].borrower) {
        if i > 0 { assert cuts[i] == cuts[1..][i - 1] && WithinOne(d, cuts[1..][i - 1]); }
      }
      forall i, j | 0 <= i < j < |cuts| ensures cuts[i].borrower != cuts[j].borrower {
        if i > 0 { assert cuts[i] == cuts[1..][i - 1] && cuts[j] == cuts[1..][j - 1]; }
      }
    }
  }

  lemma DropKeeps(s: State, b: Address)
    requires b in s.troves
    ensures Drop(s, b).troves.Keys == s.troves.Keys - {b}
    ensures forall x | x in s.troves && x != b ::
              x in Drop(s, b).troves && EntireColl(Drop(s, b), x) == EntireColl(s, x) && EntireDebt(Drop(s, b), x) == EntireDebt(s, x)
  {
    hide PendingCollAt, PendingDebtAt;
  }

  /**
   A batch is carried out exactly if it lists at least one trove, none twice, not all there are, and every cut is
   within what its trove holds before the batch.
   */
  lemma CarriedOutExactly(s: State, cuts: seq<Cut>)
    requires Inv(s)
    ensures CarriedOut(s, cuts) <==> 0 < |cuts| < |s.troves| && NoneTwice(cuts) && Within(s, cuts)
  {
    hide Inv, NoneTwice, Within;
    FitExactly(s, cuts);
    if cuts != [] && CutsFit(s, cuts) {
      DropAllInv(s, cuts);
      StakesPositive(DropAll(s, cuts));
    }
  }

  lemma TouchesSplit(cuts: seq<Cut>, x: Address)
    requires cuts != []
    ensures Touches(Liquidate(cuts), x) <==> x == cuts[0].borrower || Touches(Liquidate(cuts[1..]), x)
  {
    if Touches(Liquidate(cuts), x) && x != cuts[0].borrower {
      var i :| 0 <= i < |cuts| && cuts[i].borrower == x;
      assert cuts[1..][i - 1] == cuts[i];
    }
    if Touches(Liquidate(cuts[1..]), x) {
      var i :| 0 <= i < |cuts[1..]| && cuts[1..][i].borrower == x;
      assert cuts[i + 1] == cuts[1..][i];
    }
  }

  lemma {:induction false} SameLeaving(s: State, d: State, cuts: seq<Cut>)
    requires AllIn(s, cuts) && AllIn(d, cuts) && forall i | 0 <= i < |cuts| :: Unchanged(s, d, cuts[i].borrower)
    ensures LeavingColl(s, cuts) == LeavingColl(d, cuts) && LeavingDebt(s, cuts) == LeavingDebt(d, cuts)
    decreases |cuts|
  {
    hide PendingCollAt, PendingDebtAt;
    if cuts != [] {
      assert forall i | 0 <= i < |cuts[1..]| :: cuts[1..][i] == cuts[i + 1];
      assert Unchanged(s, d, cuts[0].borrower);
      SameLeaving(s, d, cuts[1..]);
    }
  }

  /**
   A batch, by its effect: exactly its troves are gone, the pools have lost what those held beyond their cuts, and
   the cuts went to the other troves in proportion to their collateral.
   */
  lemma BatchGives(s: State, cuts: seq<Cut>)
    requires Inv(s) && CarriedOut(s, cuts)
    ensures var r := LiquidateBatch(s, cuts);
            AllIn(s, cuts) && (forall x :: x in r.troves <==> x in s.troves && !Touches(Liquidate(cuts), x))
            && r.activeColl + r.defaultColl == s.activeColl + s.defaultColl - LeavingColl(s, cuts)
            && r.activeDebt + r.defaultDebt == s.activeDebt + s.defaultDebt - LeavingDebt(s, cuts)
    ensures var r := LiquidateBatch(s, cuts);
            forall a, b | a in r.troves && b in r.troves ::
              InProportion(EntireColl(r, a) - EntireColl(s, a), EntireColl(r, b) - EntireColl(s, b), EntireColl(s, a), EntireColl(s, b))
              && InProportion(EntireDebt(r, a) - EntireDebt(s, a), EntireDebt(r, b) - EntireDebt(s, b), EntireColl(s, a), EntireColl(s, b))
  {
    hide Inv, Spread, CutColl, CutDebt, EntireColl, EntireDebt, Touches, LeavingColl, LeavingDebt, InProportion;
    DropAllInv(s, cuts);
    DropAllGives(s, cuts);
    var p, r := DropAll(s, cuts), LiquidateBatch(s, cuts);
    SomethingLeft(p);
    RedistributeInv(p, CutColl(cuts), CutDebt(cuts));
    forall a, b | a in r.troves && b in r.troves
      ensures InProportion(EntireColl(r, a) - EntireColl(s, a), EntireColl(r, b) - EntireColl(s, b), EntireColl(s, a), EntireColl(s, b))
      ensures InProportion(EntireDebt(r, a) - EntireDebt(s, a), EntireDebt(r, b) - EntireDebt(s, b), EntireColl(s, a), EntireColl(s, b))
    {
      SharesInProportion(s, p, r, CutColl(cuts), CutDebt(cuts), a, b);
    }
  }

  /** `x` and `y` are in the ratio of `u` and `v`. */
  predicate InProportion(x: real, y: real, u: real, v: real) {
    x * v == y * u
  }

  lemma SomethingLeft(p: State)
    requires Inv(p) && p.totalStakes > 0.0
    ensures p.troves != map[]
  {
    hide TroveOk;
  }

  lemma SharesInProportion(s: State, p: State, r: State, coll: real, debt: real, a: Address, b: Address)
    requires Inv(p) && Spread(p, r, coll, debt) && a in p.troves && b in p.troves && Unchanged(s, p, a) && Unchanged(s, p, b)
    ensures InProportion(EntireColl(r, a) - EntireColl(s, a), EntireColl(r, b) - EntireColl(s, b), EntireColl(s, a), EntireColl(s, b))
    ensures InProportion(EntireDebt(r, a) - EntireDebt(s, a), EntireDebt(r, b) - EntireDebt(s, b), EntireColl(s, a), EntireColl(s, b))
  {
    hide PendingCollAt, PendingDebtAt, Inv;
    RatioInState(p, a, b);
    var k, l := coll / p.totalStakes, debt / p.totalStakes;
    ScaledProportion(p.troves[a].stake, p.troves[b].stake, EntireColl(s, a), EntireColl(s, b), k);
    ScaledProportion(p.troves[a].stake, p.troves[b].stake, EntireColl(s, a), EntireColl(s, b), l);
  }

  lemma ScaledProportion(x: real, y: real, u: real, v: real, k: real)
    requires x * v == y * u
    ensures InProportion(x * k, y * k, u, v)
  {
    assert x * k * v == k * (x * v) && y * k * u == k * (y * u);
  }

  lemma StepInv(s: State, op: Op)
    requires Inv(s)
    ensures Inv(Step(s, op))
  {
    match op
    case Open(b, c, d) => OpenInv(s, b, c, d);
    case ApplyRewards(b) => if b in s.troves { ApplyInv(s, b); }
    case Adjust(b, c, d) => AdjustInv(s, b, c, d);
    case Close(b) => if b in s.troves { DropInv(s, b); }
    case Liquidate(cuts) => BatchInv(s, cuts);
  }

  /** Over every run: the pools hold exactly what is owed, and every stake is in the one ratio. */
  lemma {:induction false} RunInv(s: State, ops: seq<Op>)
    requires Inv(s)
    ensures Inv(Run(s, ops))
    decreases |ops|
  {
    if ops != [] {
      StepInv(s, ops[0]);
      RunInv(Step(s, ops[0]), ops[1..]);
    }
  }

  /** All active troves share one ratio of stake to entire collateral: that of the system snapshots. */
  lemma SharedRatio(ops: seq<Op>, a: Address, b: Address)
    requires a in Run(EMPTY, ops).troves && b in Run(EMPTY, ops).troves
    ensures var s := Run(EMPTY, ops);
            s.troves[a].stake * EntireColl(s, b) == s.troves[b].stake * EntireColl(s, a)
    ensures var s := Run(EMPTY, ops);
            s.collSnapshot > 0.0 ==> s.troves[a].stake * s.collSnapshot == EntireColl(s, a) * s.stakesSnapshot
    ensures var s := Run(EMPTY, ops);
            s.collSnapshot == 0.0 ==> s.troves[a].stake == EntireColl(s, a)
  {
    hide Run, EntireColl, Inv;
    EmptyInv();
    RunInv(EMPTY, ops);
    RatioInState(Run(EMPTY, ops), a, b);
  }

  lemma RatioInState(s: State, a: Address, b: Address)
    requires Inv(s) && a in s.troves && b in s.troves
    ensures s.troves[a].stake * EntireColl(s, b) == s.troves[b].stake * EntireColl(s, a)
    ensures s.collSnapshot > 0.0 ==> s.troves[a].stake * s.collSnapshot == EntireColl(s, a) * s.stakesSnapshot
    ensures s.collSnapshot == 0.0 ==> s.troves[a].stake == EntireColl(s, a)
  {
    hide Times, RateOf, EntireColl, EntireDebt, Balanced;
    assert TroveOk(s, a) && TroveOk(s, b);
    CrossRatio(Rate(s), s.troves[a].stake, EntireColl(s, a), s.troves[b].stake, EntireColl(s, b));
    SnapshotRatio(s.stakesSnapshot, s.collSnapshot, s.troves[a].stake, EntireColl(s, a));
  }

  lemma SnapshotRatio(stakes: real, coll: real, stake: real, entire: real)
    requires Times(stake, RateOf(stakes, coll), entire)
    ensures if coll == 0.0 then stake == entire else stake * coll == entire * stakes
  {
  }

  lemma CrossRatio(rate: real, s: real, x: real, t: real, y: real)
    requires Times(s, rate, x) && Times(t, rate, y)
    ensures s * y == t * x
  {
  }

  predicate Touches(op: Op, b: Address) {
    match op
    case Liquidate(cuts) => exists i | 0 <= i < |cuts| :: cuts[i].borrower == b
    case _ => op.borrower == b
  }

  /** Growing in proportion to collateral, in collateral and in debt, cannot reorder two troves. */
  lemma OrderAlgebra(rate: real, k: real, d: real, collA: real, debtA: real, stakeA: real, collB: real, debtB: real, stakeB: real)
    requires rate > 0.0 && k >= 0.0 && Times(stakeA, rate, collA) && Times(stakeB, rate, collB)
    ensures Exceeds(collA + stakeA * k, debtA + stakeA * d, collB + stakeB * k, debtB + stakeB * d)
            <==> Exceeds(collA, debtA, collB, debtB)
  {
    var grow, gap := 1.0 + rate * k, collA * debtB - collB * debtA;
    assert collA + stakeA * k == grow * collA && collB + stakeB * k == grow * collB;
    assert collA * (debtB + stakeB * d) - collB * (debtA + stakeA * d) == gap;
    assert (collA + stakeA * k) * (debtB + stakeB * d) - (collB + stakeB * k) * (debtA + stakeA * d) == grow * gap;
    assert rate * k >= 0.0;
  }

  /** A batch that spreads `coll` and `debt` keeps the order of any two troves it does not liquidate. */
  lemma BatchKeepsOrder(s: State, cuts: seq<Cut>, a: Address, b: Address)
    requires Inv(s) && a in s.troves && b in s.troves
    requires !Touches(Liquidate(cuts), a) && !Touches(Liquidate(cuts), b)
    ensures var r := LiquidateBatch(s, cuts);
            a in r.troves && b in r.troves && (Above(r, a, b) <==> Above(s, a, b))
  {
    hide Inv, EntireColl, EntireDebt, Exceeds, Spread, CutColl, CutDebt;
    var r := LiquidateBatch(s, cuts);
    BatchInv(s, cuts);
    if r != s {
      var p := DropAll(s, cuts);
      Survives(s, cuts, a);
      Survives(s, cuts, b);
      DropAllInv(s, cuts);
      SameOrder(s, p, a, b);
      SpreadKeepsOrder(p, r, CutColl(cuts), CutDebt(cuts), a, b);
    }
  }

  lemma SpreadKeepsOrder(s: State, r: State, coll: real, debt: real, a: Address, b: Address)
    requires Inv(s) && a in s.troves && b in s.troves && Spread(s, r, coll, debt) && coll >= 0.0
    ensures Above(r, a, b) <==> Above(s, a, b)
  {
    hide Times, RateOf, PendingCollAt, PendingDebtAt, Sum, Exceeds;
    assert TroveOk(s, a) && TroveOk(s, b);
    RatePositive(s);
    Quotient(coll, s.totalStakes);
    OrderAlgebra(Rate(s), coll / s.totalStakes, debt / s.totalStakes,
      EntireColl(s, a), EntireDebt(s, a), s.troves[a].stake, EntireColl(s, b), EntireDebt(s, b), s.troves[b].stake);
  }

  lemma {:induction false} Survives(s: State, cuts: seq<Cut>, b: Address)
    requires CutsFit(s, cuts) && b in s.troves && !Touches(Liquidate(cuts), b)
    ensures b in DropAll(s, cuts).troves && Unchanged(s, DropAll(s, cuts), b)
    decreases |cuts|
  {
    hide PendingCollAt, PendingDebtAt;
    if cuts != [] {
      assert cuts[0].borrower != b;
      forall i | 0 <= i < |cuts[1..]| ensures cuts[1..][i].borrower != b {
        assert cuts[1..][i] == cuts[i + 1];
      }
      Survives(Drop(s, cuts[0].borrower), cuts[1..], b);
    }
  }

  /** No operation on other troves reorders two troves. */
  lemma StepKeepsOrder(s: State, op: Op, a: Address, b: Address)
    requires Inv(s) && a in s.troves && b in s.troves && !Touches(op, a) && !Touches(op, b)
    ensures var r := Step(s, op);
            a in r.troves && b in r.troves && (Above(r, a, b) <==> Above(s, a, b))
  {
    hide Times, RateOf, PendingCollAt, PendingDebtAt, Sum, Exceeds, LiquidateBatch, Inv;
    match op
    case Liquidate(cuts) =>
      BatchKeepsOrder(s, cuts, a, b);
    case ApplyRewards(x) =>
      if x in s.troves { ApplyInv(s, x); }
      SameOrder(s, Step(s, op), a, b);
    case Open(x, c, d) =>
      OpenInv(s, x, c, d);
      SameOrder(s, Step(s, op), a, b);
    case Adjust(x, c, d) =>
      AdjustInv(s, x, c, d);
      SameOrder(s, Step(s, op), a, b);
    case Close(x) =>
      if x in s.troves { DropInv(s, x); }
      SameOrder(s, Step(s, op), a, b);
  }

  lemma SameOrder(s: State, r: State, a: Address, b: Address)
    requires a in s.troves && b in s.troves
    requires Unchanged(s, r, a) && Unchanged(s, r, b)
    ensures Above(r, a, b) <==> Above(s, a, b)
  {
    hide PendingCollAt, PendingDebtAt, Exceeds;
  }

  /** Over every run of operations on other troves, two troves keep their order by collateral ratio. */
  lemma {:induction false} RunKeepsOrder(s: State, ops: seq<Op>, a: Address, b: Address)
    requires Inv(s) && a in s.troves && b in s.troves
    requires forall op | op in ops :: !Touches(op, a) && !Touches(op, b)
    ensures var r := Run(s, ops);
            a in r.troves && b in r.troves && (Above(r, a, b) <==> Above(s, a, b))
    decreases |ops|
  {
    if ops != [] {
      assert ops[0] in ops && forall op | op in ops[1..] :: op in ops;
      StepInv(s, ops[0]);
      StepKeepsOrder(s, ops[0], a, b);
      RunKeepsOrder(Step(s, ops[0]), ops[1..], a, b);
    }
  }

  /** A redistribution lowers a trove's ratio exactly when that ratio is above the ratio of what is spread. */
  lemma RedistributionLowersRatio(s: State, cuts: seq<Cut>, a: Address)
    requires Inv(s) && a in s.troves && !Touches(Liquidate(cuts), a)
    requires LiquidateBatch(s, cuts) != s && CutDebt(cuts) > 0.0
    ensures var r := LiquidateBatch(s, cuts);
            a in r.troves
            && (Exceeds(EntireColl(s, a), EntireDebt(s, a), EntireColl(r, a), EntireDebt(r, a))
                <==> Exceeds(EntireColl(s, a), EntireDebt(s, a), CutColl(cuts), CutDebt(cuts)))
  {
    hide Inv, PendingCollAt, PendingDebtAt, Exceeds, Spread;
    var p := DropAll(s, cuts);
    BatchInv(s, cuts);
    Survives(s, cuts, a);
    DropAllInv(s, cuts);
    SpreadLowersRatio(p, LiquidateBatch(s, cuts), CutColl(cuts), CutDebt(cuts), a);
  }

  lemma SpreadLowersRatio(s: State, r: State, coll: real, debt: real, a: Address)
    requires Inv(s) && a in s.troves && Spread(s, r, coll, debt)
    ensures Exceeds(EntireColl(s, a), EntireDebt(s, a), EntireColl(r, a), EntireDebt(r, a))
            <==> Exceeds(EntireColl(s, a), EntireDebt(s, a), coll, debt)
  {
    hide Times, RateOf, PendingCollAt, PendingDebtAt, Sum, Exceeds;
    assert TroveOk(s, a);
    LowerAlgebra(s.totalStakes, coll, debt, EntireColl(s, a), EntireDebt(s, a), s.troves[a].stake,
                 EntireColl(r, a), EntireDebt(r, a));
  }

  lemma LowerAlgebra(total: real, coll: real, debt: real, collA: real, debtA: real, stakeA: real, laterColl: real, laterDebt: real)
    requires total > 0.0 && stakeA > 0.0
    requires laterColl == collA + stakeA * (coll / total) && laterDebt == debtA + stakeA * (debt / total)
    ensures Exceeds(collA, debtA, laterColl, laterDebt) <==> Exceeds(collA, debtA, coll, debt)
  {
    var k := stakeA / total;
    assert stakeA * (coll / total) == k * coll && stakeA * (debt / total) == k * debt;
    assert (collA + k * coll) * debtA - collA * (debtA + k * debt) == k * (coll * debtA - collA * debt);
    assert k > 0.0;
  }

  // ----- why stakes are corrected

  /** The same operations with raw collateral as stake: snapshots are never taken. */
  function RawStep(s: State, op: Op): State {
    Step(s, op).(stakesSnapshot := 0.0, collSnapshot := 0.0)
  }

  function RawRun(s: State, ops: seq<Op>): State
    decreases |ops|
  {
    if ops == [] then s else RawRun(RawStep(s, ops[0]), ops[1..])
  }

  /** Under raw stakes, a run opens a trove after a first liquidation, and a second one reorders it with an older trove. */
  ghost predicate Reorders(ops: seq<Op>, cuts: seq<Cut>, a: Address, b: Address) {
    var s := RawRun(EMPTY, ops);
    var r := RawStep(s, Liquidate(cuts));
    CarriedOut(s, cuts) && !Touches(Liquidate(cuts), a) && !Touches(Liquidate(cuts), b)
    && a in s.troves && b in s.troves && a in r.troves && b in r.troves && Above(s, b, a) && Above(r, a, b)
  }

  const OLDER := Trove(1.0, 1.0, 1.0, 0.0, 0.0)
  const FIRST_LIQUIDATED := Trove(1.0, 0.8, 1.0, 0.0, 0.0)
  const YOUNGER := Trove(2.0, 1.79, 2.0, 1.0, 0.8)
  const LAST_LIQUIDATED := Trove(3.0, 3.0, 3.0, 1.0, 0.8)

  const RAW_OPS := [Open(1, 1.0, 1.0), Open(3, 1.0, 0.8), Liquidate([Cut(3, 1.0, 0.8)]), Open(2, 2.0, 1.79), Open(4, 3.0, 3.0)]

  const RAW_1 := State(map[1 := OLDER], 0.0, 0.0, 1.0, 0.0, 0.0, 1.0, 1.0, 0.0, 0.0)
  const RAW_2 := State(map[1 := OLDER, 3 := FIRST_LIQUIDATED], 0.0, 0.0, 2.0, 0.0, 0.0, 2.0, 1.8, 0.0, 0.0)
  const RAW_3 := State(map[1 := OLDER], 1.0, 0.8, 1.0, 0.0, 0.0, 1.0, 1.0, 1.0, 0.8)
  const RAW_4 := State(map[1 := OLDER, 2 := YOUNGER], 1.0, 0.8, 3.0, 0.0, 0.0, 3.0, 2.79, 1.0, 0.8)
  const RAW_5 := State(map[1 := OLDER, 2 := YOUNGER, 4 := LAST_LIQUIDATED], 1.0, 0.8, 6.0, 0.0, 0.0, 6.0, 5.79, 1.0, 0.8)
  const RAW_6 := State(map[1 := OLDER, 2 := YOUNGER], 2.0, 1.8, 3.0, 0.0, 0.0, 3.0, 2.79, 4.0, 3.8)

  lemma RawStakesBreakOrder(ops: seq<Op>, last: Cut)
    requires ops == RAW_OPS && last == Cut(4, 3.0, 3.0)
    ensures Reorders(ops, [last], 1, 2)
  {
    hide RawRun, RawStep, CarriedOut, Reorders;
    RawOpens();
    FirstBatch();
    LastBatch();
    RawRunFive(EMPTY, Open(1, 1.0, 1.0), Open(3, 1.0, 0.8), Liquidate([Cut(3, 1.0, 0.8)]), Open(2, 2.0, 1.79), Open(4, 3.0, 3.0));
    Reordered(ops, last);
  }

  lemma Reordered(ops: seq<Op>, last: Cut)
    requires last.borrower == 4 && RawRun(EMPTY, ops) == RAW_5 && RawStep(RAW_5, Liquidate([last])) == RAW_6
    requires CarriedOut(RAW_5, [last])
    ensures Reorders(ops, [last], 1, 2)
  {
    hide RawRun, RawStep, CarriedOut;
    assert EntireColl(RAW_5, 1) == 2.0 && EntireDebt(RAW_5, 1) == 1.8;
    assert EntireColl(RAW_5, 2) == 2.0 && EntireDebt(RAW_5, 2) == 1.79;
    assert EntireColl(RAW_6, 1) == 3.0 && EntireDebt(RAW_6, 1) == 2.8;
    assert EntireColl(RAW_6, 2) == 4.0 && EntireDebt(RAW_6, 2) == 3.79;
  }

  lemma RawOpens()
    ensures RawStep(EMPTY, Open(1, 1.0, 1.0)) == RAW_1 && RawStep(RAW_1, Open(3, 1.0, 0.8)) == RAW_2
    ensures RawStep(RAW_3, Open(2, 2.0, 1.79)) == RAW_4 && RawStep(RAW_4, Open(4, 3.0, 3.0)) == RAW_5
  {
    RawOpen(EMPTY, 1, 1.0, 1.0);
    RawOpen(RAW_1, 3, 1.0, 0.8);
    RawOpen(RAW_3, 2, 2.0, 1.79);
    RawOpen(RAW_4, 4, 3.0, 3.0);
    hide RawStep;
    assert EMPTY.troves[1 := OLDER] == RAW_1.troves && RAW_1.troves[3 := FIRST_LIQUIDATED] == RAW_2.troves;
    assert RAW_3.troves[2 := YOUNGER] == RAW_4.troves && RAW_4.troves[4 := LAST_LIQUIDATED] == RAW_5.troves;
  }

  /** Opening under raw stakes: the stake is the collateral. */
  lemma RawOpen(s: State, b: Address, coll: real, debt: real)
    requires b !in s.troves && coll > 0.0 && debt > 0.0 && s.collSnapshot == s.stakesSnapshot == 0.0
    ensures RawStep(s, Open(b, coll, debt))
            == s.(troves := s.troves[b := Trove(coll, debt, coll, s.lColl, s.lDebt)], totalStakes := s.totalStakes + coll,
                  activeColl := s.activeColl + coll, activeDebt := s.activeDebt + debt)
  {
  }

  /** Liquidating one trove and spreading its cut, under raw stakes. */
  lemma RawBatch(s: State, c: Cut)
    requires CutFits(s, c) && |s.troves| > 1 && c.debt > 0.0 && s.totalStakes > s.troves[c.borrower].stake
    ensures CarriedOut(s, [c])
    ensures var d := Drop(s, c.borrower);
            RawStep(s, Liquidate([c]))
            == d.(lColl := d.lColl + c.coll / d.totalStakes, lDebt := d.lDebt + c.debt / d.totalStakes,
                  defaultColl := d.defaultColl + c.coll, defaultDebt := d.defaultDebt + c.debt,
                  stakesSnapshot := 0.0, collSnapshot := 0.0)
  {
    hide PendingColl, PendingDebt;
    var d := Drop(s, c.borrower);
    assert [c][0] == c && [c][1..] == [];
    assert CutsFit(d, []) && DropAll(d, []) == d && CutColl([]) == 0.0 == CutDebt([]);
    assert CutsFit(s, [c]) && DropAll(s, [c]) == d;
  }

  lemma FirstBatch()
    ensures RawStep(RAW_2, Liquidate([Cut(3, 1.0, 0.8)])) == RAW_3
  {
    RawBatch(RAW_2, Cut(3, 1.0, 0.8));
    hide RawStep;
    assert RAW_2.troves - {3} == RAW_3.troves;
  }

  lemma LastBatch()
    ensures CarriedOut(RAW_5, [Cut(4, 3.0, 3.0)]) && RawStep(RAW_5, Liquidate([Cut(4, 3.0, 3.0)])) == RAW_6
  {
    RawBatch(RAW_5, Cut(4, 3.0, 3.0));
    hide RawStep, CarriedOut;
    assert RAW_5.troves - {4} == RAW_6.troves;
  }

  lemma RawRunFive(s: State, a: Op, b: Op, c: Op, d: Op, e: Op)
    ensures RawRun(s, [a, b, c, d, e]) == RawStep(RawStep(RawStep(RawStep(RawStep(s, a), b), c), d), e)
  {
    hide RawStep;
    var s1 := RawStep(s, a);
    var s2 := RawStep(s1, b);
    var s3 := RawStep(s2, c);
    assert [a, b, c, d, e][1..] == [b, c, d, e] && [b, c, d, e][1..] == [c, d, e];
    assert [c, d, e][1..] == [d, e] && [d, e][1..] == [e] && [e][1..] == [];
    assert RawRun(s, [a, b, c, d, e]) == RawRun(s1, [b, c, d, e]);
    assert RawRun(s1, [b, c, d, e]) == RawRun(s2, [c, d, e]);
    assert RawRun(s2, [c, d, e]) == RawRun(s3, [d, e]);
    assert RawRun(s3, [d, e]) == RawRun(RawStep(s3, d), [e]);
  }

  // ----- the operations in place

  class TroveManager {
    var troves: map<Address, Trove>
    var lColl: real
    var lDebt: real
    var totalStakes: real
    var stakesSnapshot: real
    var collSnapshot: real
    var activeColl: real
    var activeDebt: real
    var defaultColl: real
    var defaultDebt: real

    function Abs(): State
      reads this
    {
      State(troves, lColl, lDebt, totalStakes, stakesSnapshot, collSnapshot, activeColl, activeDebt, defaultColl, defaultDebt)
    }

    constructor ()
      ensures Abs() == EMPTY && Inv(Abs())
    {
      hide Inv;
      troves := map[];
      lColl, lDebt, totalStakes, stakesSnapshot, collSnapshot := 0.0, 0.0, 0.0, 0.0, 0.0;
      activeColl, activeDebt, defaultColl, defaultDebt := 0.0, 0.0, 0.0, 0.0;
      new;
      EmptyInv();
    }

    method ApplyPendingRewards(b: Address)
      requires b in troves
      modifies this
      ensures Abs() == Apply(old(Abs()), b)
    {
      hide PendingCollAt, PendingDebtAt;
      var t := troves[b];
      if t.collSnap < lColl {
        var c := PendingColl(Abs(), b);
        t := t.(coll := t.coll + c);
        var d := PendingDebt(Abs(), b);
        t := t.(debt := t.debt + d, collSnap := lColl, debtSnap := lDebt);
        troves := troves[b := t];
        activeDebt, defaultDebt := activeDebt + d, defaultDebt - d;
        defaultColl, activeColl := defaultColl - c, activeColl + c;
      }
    }

    /** Recomputes the stake of a trove from its collateral and the latest snapshots. */
    method UpdateStakeAndTotalStakes(b: Address)
      requires b in troves
      modifies this
      ensures Abs() == Restaked(old(Abs()), b)
    {
      ghost var restaked := Restaked(Abs(), b);
      var t := troves[b];
      var stake := Rate(Abs()) * t.coll;
      troves := troves[b := t.(stake := stake)];
      totalStakes := totalStakes - t.stake + stake;
      assert totalStakes == restaked.totalStakes;
      assert troves == restaked.troves;
      assert Abs() == restaked;
    }

    method OpenTrove(b: Address, coll: real, debt: real) returns (ok: bool)
      modifies this
      ensures ok <==> b !in old(troves) && coll > 0.0 && debt > 0.0
      ensures Abs() == Opened(old(Abs()), b, coll, debt)
      ensures Inv(old(Abs())) ==> Inv(Abs())
      ensures ok ==> b in troves && EntireColl(Abs(), b) == coll && EntireDebt(Abs(), b) == debt
                     && activeColl == old(activeColl) + coll && activeDebt == old(activeDebt) + debt
                     && defaultColl == old(defaultColl) && defaultDebt == old(defaultDebt)
    {
      hide Inv, Restaked, EntireColl, EntireDebt;
      OpenInvOf(Abs(), b, coll, debt);
      if b in troves || coll <= 0.0 || debt <= 0.0 {
        return false;
      }
      OpenGives(Abs(), b, coll, debt);
      var t := Trove(coll, debt, 0.0, lColl, lDebt);
      assert troves[b := Trove(0.0, 0.0, 0.0, lColl, lDebt)][b := t] == troves[b := t];
      troves := troves[b := t];
      activeDebt := activeDebt + debt;
      activeColl := activeColl + coll;
      UpdateStakeAndTotalStakes(b);
      return true;
    }

    method AdjustTrove(b: Address, collChange: real, debtChange: real) returns (ok: bool)
      modifies this
      ensures ok <==> b in old(troves)
                      && EntireColl(old(Abs()), b) + collChange > 0.0 && EntireDebt(old(Abs()), b) + debtChange > 0.0
      ensures Abs() == Adjusted(old(Abs()), b, collChange, debtChange)
      ensures Inv(old(Abs())) ==> Inv(Abs())
      ensures ok && Inv(old(Abs())) ==>
                b in troves && EntireColl(Abs(), b) == EntireColl(old(Abs()), b) + collChange
                && EntireDebt(Abs(), b) == EntireDebt(old(Abs()), b) + debtChange
                && activeColl + defaultColl == old(activeColl + defaultColl) + collChange
                && activeDebt + defaultDebt == old(activeDebt + defaultDebt) + debtChange
    {
      hide Inv, PendingCollAt, PendingDebtAt, Restaked;
      AdjustInvOf(Abs(), b, collChange, debtChange);
      AdjustGivesOf(Abs(), b, collChange, debtChange);
      if b !in troves || EntireColl(Abs(), b) + collChange <= 0.0 || EntireDebt(Abs(), b) + debtChange <= 0.0 {
        return false;
      }
      ApplyPendingRewards(b);
      var t := troves[b];
      troves := troves[b := t.(coll := t.coll + collChange, debt := t.debt + debtChange)];
      activeDebt := activeDebt + debtChange;
      activeColl := activeColl + collChange;
      UpdateStakeAndTotalStakes(b);
      return true;
    }

    /** Removes a trove with its stake, its recorded amounts and whatever is pending for it. */
    method RemoveTrove(b: Address)
      requires b in troves
      modifies this
      ensures Abs() == Drop(old(Abs()), b)
    {
      hide PendingCollAt, PendingDebtAt;
      var t, c, d := troves[b], PendingColl(Abs(), b), PendingDebt(Abs(), b);
      activeColl, activeDebt := activeColl + c, activeDebt + d;
      defaultColl, defaultDebt := defaultColl - c, defaultDebt - d;
      totalStakes := totalStakes - t.stake;
      troves := troves - {b};
      activeColl, activeDebt := activeColl - (t.coll + c), activeDebt - (t.debt + d);
    }

    method CloseTrove(b: Address) returns (ok: bool)
      modifies this
      ensures ok <==> b in old(troves) && |old(troves)| > 1
      ensures Abs() == Closed(old(Abs()), b)
      ensures Inv(old(Abs())) ==> Inv(Abs())
      ensures ok ==> troves.Keys == old(troves.Keys) - {b}
                     && activeColl + defaultColl == old(activeColl + defaultColl) - EntireColl(old(Abs()), b)
                     && activeDebt + defaultDebt == old(activeDebt + defaultDebt) - EntireDebt(old(Abs()), b)
    {
      hide Inv, PendingCollAt, PendingDebtAt;
      if b !in troves || |troves| <= 1 {
        return false;
      }
      CloseGives(Abs(), b);
      CloseInvOf(Abs(), b);
      RemoveTrove(b);
      return true;
    }

    method Restore(s: State)
      modifies this
      ensures Abs() == s
    {
      troves, lColl, lDebt, totalStakes := s.troves, s.lColl, s.lDebt, s.totalStakes;
      stakesSnapshot, collSnapshot := s.stakesSnapshot, s.collSnapshot;
      activeColl, activeDebt, defaultColl, defaultDebt := s.activeColl, s.activeDebt, s.defaultColl, s.defaultDebt;
    }

    method BatchLiquidate(cuts: seq<Cut>) returns (ok: bool)
      modifies this
      ensures Abs() == LiquidateBatch(old(Abs()), cuts) && (ok <==> CarriedOut(old(Abs()), cuts))
      ensures Inv(old(Abs())) ==> Inv(Abs())
    {
      hide Inv, PendingCollAt, PendingDebtAt, CutsFit, DropAll, CutColl, CutDebt;
      var before := Abs();
      BatchInvOf(before, cuts);
      if cuts == [] {
        return false;
      }
      var fits, coll, debt := DropCuts(cuts);
      if !fits || totalStakes <= 0.0 {
        Restore(before);
        return false;
      }
      if debt != 0.0 {
        lColl, lDebt := lColl + coll / totalStakes, lDebt + debt / totalStakes;
        defaultColl, defaultDebt := defaultColl + coll, defaultDebt + debt;
      }
      stakesSnapshot, collSnapshot := totalStakes, activeColl + defaultColl;
      return true;
    }

    /** Removes the troves of a batch one by one and adds up what they give away. */
    method DropCuts(cuts: seq<Cut>) returns (fits: bool, coll: real, debt: real)
      modifies this
      ensures fits <==> CutsFit(old(Abs()), cuts)
      ensures fits ==> Abs() == DropAll(old(Abs()), cuts) && coll == CutColl(cuts) && debt == CutDebt(cuts)
    {
      hide PendingCollAt, PendingDebtAt;
      var i := 0;
      coll, debt := 0.0, 0.0;
      while i < |cuts|
        invariant 0 <= i <= |cuts|
        invariant CutsFit(old(Abs()), cuts) <==> CutsFit(Abs(), cuts[i..])
        invariant CutsFit(old(Abs()), cuts) ==> DropAll(old(Abs()), cuts) == DropAll(Abs(), cuts[i..])
        invariant coll + CutColl(cuts[i..]) == CutColl(cuts) && debt + CutDebt(cuts[i..]) == CutDebt(cuts)
      {
        var c := cuts[i];
        assert cuts[i..][0] == c && cuts[i..][1..] == cuts[i + 1..];
        if |troves| <= 1 || !CutFits(Abs(), c) {
          return false, coll, debt;
        }
        RemoveTrove(c.borrower);
        coll, debt := coll + c.coll, debt + c.debt;
        i := i + 1;
      }
      return true, coll, debt;
    }
  }

  lemma OpenInvOf(s: State, b: Address, coll: real, debt: real)
    ensures Inv(s) ==> Inv(Opened(s, b, coll, debt))
  {
    if Inv(s) { OpenInv(s, b, coll, debt); }
  }

  lemma AdjustInvOf(s: State, b: Address, collChange: real, debtChange: real)
    ensures Inv(s) ==> Inv(Adjusted(s, b, collChange, debtChange))
  {
    if Inv(s) { AdjustInv(s, b, collChange, debtChange); }
  }

  lemma AdjustGivesOf(s: State, b: Address, collChange: real, debtChange: real)
    ensures Inv(s) && b in s.troves && EntireColl(s, b) + collChange > 0.0 && EntireDebt(s, b) + debtChange > 0.0 ==>
              var r := Adjusted(s, b, collChange, debtChange);
              b in r.troves && EntireColl(r, b) == EntireColl(s, b) + collChange && EntireDebt(r, b) == EntireDebt(s, b) + debtChange
              && r.activeColl + r.defaultColl == s.activeColl + s.defaultColl + collChange
              && r.activeDebt + r.defaultDebt == s.activeDebt + s.defaultDebt + debtChange
  {
    hide Inv, Adjusted, PendingCollAt, PendingDebtAt;
    if Inv(s) && b in s.troves && EntireColl(s, b) + collChange > 0.0 && EntireDebt(s, b) + debtChange > 0.0 {
      AdjustGives(s, b, collChange, debtChange);
    }
  }

  lemma CloseInvOf(s: State, b: Address)
    ensures Inv(s) ==> Inv(Closed(s, b))
  {
    if Inv(s) && b in s.troves { DropInv(s, b); }
  }

  lemma BatchInvOf(s: State, cuts: seq<Cut>)
    ensures Inv(s) ==> Inv(LiquidateBatch(s, cuts))
  {
    if Inv(s) { BatchInv(s, cuts); }
  }
}
