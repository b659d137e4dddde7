/**
 What a redistribution does to the list of troves. It moves all ratios by one map, so a list in exact
 order stays in order, over every batch and every run. The contract compares truncated ratios: those
 are sorted at every precision exactly when the list is in exact order, and a tie may come apart, by
 no more than the growth of the collateral.
 */
module TroveOrder {
  import opened Accounts
  import opened Arithmetic
  import opened Redistribution
  import opened SortedTroves

  /** Active troves from the largest ratio of entire collateral to entire debt to the smallest. */
  ghost predicate InOrder(s: State, list: seq<Address>) {
    (forall x | x in list :: x in s.troves)
    && forall i, j | 0 <= i < j < |list| :: list[i] in list && list[j] in list && !Above(s, list[j], list[i])
  }

  /** The list without the troves of a batch. */
  function Survivors(list: seq<Address>, cuts: seq<Cut>): (rest: seq<Address>)
    ensures forall x :: x in rest <==> x in list && !Touches(Liquidate(cuts), x)
    decreases |cuts|
  {
    if cuts == [] then list
    else
      var rest := Survivors(Without(list, cuts[0].borrower), cuts[1..]);
      TouchesSplit(cuts);
      rest
  }

  lemma TouchesSplit(cuts: seq<Cut>)
    requires cuts != []
    ensures forall x :: Touches(Liquidate(cuts), x) <==> x == cuts[0].borrower || Touches(Liquidate(cuts[1..]), x)
  {
    assert forall i | 0 <= i < |cuts[1..]| :: cuts[1..][i] == cuts[i + 1];
    assert forall i | 0 < i < |cuts| :: cuts[i] == cuts[1..][i - 1];
  }

  /** No trove of the list is above `x`. */
  ghost predicate NoneAbove(s: State, x: Address, list: seq<Address>)
    requires x in s.troves && forall y | y in list :: y in s.troves
  {
    forall y | y in list :: !Above(s, y, x)
  }

  lemma TailInOrder(s: State, list: seq<Address>)
    requires InOrder(s, list) && list != []
    ensures list[0] in s.troves && InOrder(s, list[1..]) && NoneAbove(s, list[0], list[1..])
  {
    hide Above;
    var rest := list[1..];
    forall y | y in rest ensures !Above(s, y, list[0]) {
      var k :| 0 <= k < |rest| && rest[k] == y;
      assert list[k + 1] == y;
    }
    forall i, j | 0 <= i < j < |rest| ensures !Above(s, rest[j], rest[i]) {
      assert rest[i] == list[i + 1] && rest[j] == list[j + 1];
    }
  }

  lemma ConsInOrder(s: State, x: Address, rest: seq<Address>)
    requires x in s.troves && InOrder(s, rest) && NoneAbove(s, x, rest)
    ensures InOrder(s, [x] + rest)
  {
    hide Above;
    var longer := [x] + rest;
    forall i, j | 0 <= i < j < |longer| ensures !Above(s, longer[j], longer[i]) {
      assert longer[j] == rest[j - 1] && rest[j - 1] in rest;
      if i > 0 {
        assert longer[i] == rest[i - 1];
      }
    }
  }

  lemma {:induction false} WithoutInOrder(s: State, list: seq<Address>, id: Address)
    requires InOrder(s, list)
    ensures InOrder(s, Without(list, id))
  {
    if list != [] {
      TailInOrder(s, list);
      WithoutInOrder(s, list[1..], id);
      hide InOrder, Above;
      if list[0] != id {
        FewerAbove(s, list[0], list[1..], Without(list[1..], id));
        ConsInOrder(s, list[0], Without(list[1..], id));
      }
    }
  }

  lemma FewerAbove(s: State, x: Address, list: seq<Address>, fewer: seq<Address>)
    requires x in s.troves && InOrder(s, list) && NoneAbove(s, x, list) && forall y | y in fewer :: y in list
    ensures (forall y | y in fewer :: y in s.troves) && NoneAbove(s, x, fewer)
  {
  }

  lemma {:induction false} SurvivorsInOrder(s: State, list: seq<Address>, cuts: seq<Cut>)
    requires InOrder(s, list)
    ensures InOrder(s, Survivors(list, cuts))
    decreases |cuts|
  {
    hide Above;
    if cuts != [] {
      WithoutInOrder(s, list, cuts[0].borrower);
      SurvivorsInOrder(s, Without(list, cuts[0].borrower), cuts[1..]);
    }
  }

  /** A liquidation only takes its own troves off the list; the others stay in order, wherever they get the cuts. */
  lemma BatchKeepsListInOrder(s: State, list: seq<Address>, cuts: seq<Cut>)
    requires Inv(s) && InOrder(s, list)
    ensures InOrder(LiquidateBatch(s, cuts), Survivors(list, cuts))
  {
    hide Inv, Above, LiquidateBatch, Touches;
    SurvivorsInOrder(s, list, cuts);
    var rest, r := Survivors(list, cuts), LiquidateBatch(s, cuts);
    forall x | x in rest ensures x in r.troves {
      BatchKeepsOrder(s, cuts, x, x);
    }
    forall i, j | 0 <= i < j < |rest| ensures !Above(r, rest[j], rest[i]) {
      assert rest[i] in rest && rest[j] in rest;
      BatchKeepsOrder(s, cuts, rest[j], rest[i]);
    }
  }

  /** Over every run of operations on other troves a list stays in order without being touched. */
  lemma RunKeepsListInOrder(s: State, list: seq<Address>, ops: seq<Op>)
    requires Inv(s) && InOrder(s, list)
    requires forall op, x | op in ops && x in list :: !Touches(op, x)
    ensures InOrder(Run(s, ops), list)
  {
    hide Inv, Above, Run, Touches;
    var r := Run(s, ops);
    forall x | x in list ensures x in r.troves {
      RunKeepsOrder(s, ops, x, x);
    }
    forall i, j | 0 <= i < j < |list| ensures !Above(r, list[j], list[i]) {
      assert list[i] in list && list[j] in list;
      RunKeepsOrder(s, ops, list[j], list[i]);
    }
  }

  /** The ratio times a factor, truncated: price over par gives the current ratio, the nominal precision the nominal one. */
  function Ratio(s: State, factor: real): Address -> nat
    requires factor >= 0.0
  {
    (x: Address) =>
      if x in s.troves && EntireColl(s, x) >= 0.0 && EntireDebt(s, x) > 0.0
      then Truncated(EntireColl(s, x), EntireDebt(s, x), factor) else 0
  }

  function Truncated(coll: real, debt: real, factor: real): nat
    requires coll >= 0.0 && debt > 0.0 && factor >= 0.0
  {
    var scaled := Scaled(coll, factor);
    Quotient(scaled, debt);
    (scaled / debt).Floor
  }

  function Scaled(coll: real, factor: real): (scaled: real)
    requires coll >= 0.0 && factor >= 0.0
    ensures scaled >= 0.0
  {
    Product(coll, factor);
    coll * factor
  }

  lemma TruncatedMonotone(collA: real, debtA: real, collB: real, debtB: real, factor: real)
    requires factor >= 0.0 && collA >= 0.0 && debtA > 0.0 && collB >= 0.0 && debtB > 0.0 && !Exceeds(collB, debtB, collA, debtA)
    ensures Truncated(collA, debtA, factor) >= Truncated(collB, debtB, factor)
  {
    var a, b := Scaled(collA, factor), Scaled(collB, factor);
    RatioMonotone(collA, debtA, collB, debtB, factor, a, b);
    hide Scaled, Exceeds;
    assert (b / debtB).Floor <= (a / debtA).Floor;
  }

  lemma RatioMonotone(collA: real, debtA: real, collB: real, debtB: real, k: real, a: real, b: real)
    requires debtA > 0.0 && debtB > 0.0 && k >= 0.0 && collB * debtA <= collA * debtB && a == collA * k && b == collB * k
    ensures b / debtB <= a / debtA
  {
    var x, y, c := a / debtA, b / debtB, debtA * debtB;
    Quotient(a, debtA);
    Quotient(b, debtB);
    LessEqualTimes(collB * debtA, collA * debtB, k);
    CrossFactors(x, y, collA, debtA, collB, debtB, k);
    PositiveProduct(debtA, debtB);
    CancelLessEqual(c, y, x);
  }

  lemma CrossFactors(x: real, y: real, collA: real, debtA: real, collB: real, debtB: real, k: real)
    requires x * debtA == collA * k && y * debtB == collB * k
    ensures x * (debtA * debtB) == collA * debtB * k && y * (debtA * debtB) == collB * debtA * k
  {
    assert x * (debtA * debtB) == (x * debtA) * debtB;
    assert y * (debtA * debtB) == (y * debtB) * debtA;
  }

  /** A list in order is sorted for the contract, whose ratios are truncated, at any precision and at any price. */
  lemma InOrderIsSorted(s: State, list: seq<Address>, factor: real)
    requires Inv(s) && InOrder(s, list) && factor >= 0.0
    ensures Sorted(list, Ratio(s, factor))
  {
    hide Truncated, Exceeds;
    forall i, j | 0 <= i < j < |list| ensures Ratio(s, factor)(list[i]) >= Ratio(s, factor)(list[j]) {
      assert list[i] in list && list[j] in list;
      EntirePositive(s, list[i]);
      EntirePositive(s, list[j]);
      TruncatedMonotone(EntireColl(s, list[i]), EntireDebt(s, list[i]), EntireColl(s, list[j]), EntireDebt(s, list[j]), factor);
    }
  }

  lemma EntirePositive(s: State, b: Address)
    requires Inv(s) && b in s.troves
    ensures EntireColl(s, b) > 0.0 && EntireDebt(s, b) > 0.0
  {
    hide PendingCollAt, PendingDebtAt, Times, Balanced;
    assert TroveOk(s, b);
    EarnedNonNegative(s, b);
  }

  /** A list in exact order is sorted after every batch for whoever compares truncated ratios, with no trove re-inserted. */
  lemma BatchKeepsListSorted(s: State, list: seq<Address>, cuts: seq<Cut>, factor: real)
    requires Inv(s) && InOrder(s, list) && factor >= 0.0
    ensures Sorted(Survivors(list, cuts), Ratio(LiquidateBatch(s, cuts), factor))
  {
    hide Inv, InOrder, LiquidateBatch, Survivors;
    BatchKeepsListInOrder(s, list, cuts);
    BatchInv(s, cuts);
    InOrderIsSorted(LiquidateBatch(s, cuts), Survivors(list, cuts), factor);
  }

  // ----- truncated and exact order

  ghost predicate SortedAlways(s: State, list: seq<Address>) {
    forall factor: real | factor >= 0.0 :: Sorted(list, Ratio(s, factor))
  }

  /** Troves whose truncated ratios are equal are in exact order. */
  ghost predicate TiesInOrder(s: State, list: seq<Address>, factor: real)
    requires factor >= 0.0 && forall x | x in list :: x in s.troves
  {
    forall i, j | 0 <= i < j < |list| && Ratio(s, factor)(list[i]) == Ratio(s, factor)(list[j]) ::
      list[i] in list && list[j] in list && !Above(s, list[j], list[i])
  }

  /** A larger truncated ratio is a larger ratio. */
  lemma LargerRatio(s: State, x: Address, y: Address, factor: real)
    requires Inv(s) && x in s.troves && y in s.troves && factor >= 0.0 && Ratio(s, factor)(x) < Ratio(s, factor)(y)
    ensures Above(s, y, x) && !Above(s, x, y)
  {
    hide Truncated, Exceeds, Inv;
    EntirePositive(s, x);
    EntirePositive(s, y);
    if !Above(s, y, x) {
      TruncatedMonotone(EntireColl(s, x), EntireDebt(s, x), EntireColl(s, y), EntireDebt(s, y), factor);
    } else {
      NotBoth(EntireColl(s, x), EntireDebt(s, x), EntireColl(s, y), EntireDebt(s, y));
    }
  }

  lemma NotBoth(collA: real, debtA: real, collB: real, debtB: real)
    ensures !(Exceeds(collA, debtA, collB, debtB) && Exceeds(collB, debtB, collA, debtA))
  {
  }

  /** At one precision: exact order is truncated order with the ties in exact order. */
  lemma InOrderAtFactor(s: State, list: seq<Address>, factor: real)
    requires Inv(s) && factor >= 0.0 && forall x | x in list :: x in s.troves
    ensures InOrder(s, list) <==> Sorted(list, Ratio(s, factor)) && TiesInOrder(s, list, factor)
  {
    hide Inv, Above;
    if InOrder(s, list) {
      InOrderIsSorted(s, list, factor);
    }
    if Sorted(list, Ratio(s, factor)) && TiesInOrder(s, list, factor) {
      forall i, j | 0 <= i < j < |list| ensures list[i] in list && list[j] in list && !Above(s, list[j], list[i]) {
        if Ratio(s, factor)(list[j]) < Ratio(s, factor)(list[i]) {
          LargerRatio(s, list[j], list[i], factor);
        }
      }
    }
  }

  /** At a fine enough precision any two different ratios are told apart. */
  lemma ToldApart(s: State, x: Address, y: Address) returns (factor: real)
    requires Inv(s) && x in s.troves && y in s.troves && Above(s, y, x)
    ensures factor >= 0.0 && Ratio(s, factor)(x) < Ratio(s, factor)(y)
  {
    EntirePositive(s, x);
    EntirePositive(s, y);
    var cx, dx, cy, dy := EntireColl(s, x), EntireDebt(s, x), EntireColl(s, y), EntireDebt(s, y);
    hide Inv, EntireColl, EntireDebt;
    factor := Separator(cx, dx, cy, dy);
  }

  lemma Separator(cx: real, dx: real, cy: real, dy: real) returns (factor: real)
    requires cx > 0.0 && dx > 0.0 && cy > 0.0 && dy > 0.0 && Exceeds(cy, dy, cx, dx)
    ensures factor >= 0.0 && Truncated(cx, dx, factor) < Truncated(cy, dy, factor)
  {
    var a, b := cx / dx, cy / dy;
    Quotient(cx, dx);
    Quotient(cy, dy);
    LargerQuotient(a, dx, b, dy, cx, cy);
    factor := 1.0 / (b - a);
    Quotient(1.0, b - a);
    TruncatedQuotient(cx, dx, factor, a);
    TruncatedQuotient(cy, dy, factor, b);
    hide Truncated;
    OneApart(a, b, factor);
  }

  lemma TruncatedQuotient(coll: real, debt: real, factor: real, q: real)
    requires coll >= 0.0 && debt > 0.0 && factor >= 0.0 && q == coll / debt
    ensures Truncated(coll, debt, factor) == (q * factor).Floor
  {
    QuotientOfProduct(coll, factor, debt);
    assert Scaled(coll, factor) == coll * factor;
    assert Scaled(coll, factor) / debt == q * factor;
  }

  lemma OneApart(a: real, b: real, factor: real)
    requires factor * (b - a) == 1.0
    ensures (a * factor).Floor < (b * factor).Floor
  {
    var x, y := a * factor, b * factor;
    assert y == x + 1.0 by { assert factor * (b - a) == b * factor - a * factor; }
    NextFloor(x, y);
  }

  lemma NextFloor(x: real, y: real)
    requires y == x + 1.0
    ensures x.Floor < y.Floor
  {
  }

  lemma LargerQuotient(a: real, dx: real, b: real, dy: real, cx: real, cy: real)
    requires dx > 0.0 && dy > 0.0 && a * dx == cx && b * dy == cy && cy * dx > cx * dy
    ensures b > a
  {
    PositiveProduct(dx, dy);
    assert b * (dx * dy) == cy * dx && a * (dx * dy) == cx * dy;
    if b <= a {
      LessEqualTimes(b, a, dx * dy);
    }
  }

  /** Exact order is what it takes to be sorted at every precision and every price. */
  lemma InOrderExactly(s: State, list: seq<Address>)
    requires Inv(s) && forall x | x in list :: x in s.troves
    ensures InOrder(s, list) <==> SortedAlways(s, list)
  {
    hide Inv, Above;
    if InOrder(s, list) {
      forall factor: real | factor >= 0.0 ensures Sorted(list, Ratio(s, factor)) {
        InOrderIsSorted(s, list, factor);
      }
    } else {
      assert forall i | 0 <= i < |list| :: list[i] in list;
      var i, j :| 0 <= i < j < |list| && Above(s, list[j], list[i]);
      var factor := ToldApart(s, list[i], list[j]);
      assert Ratio(s, factor)(list[i]) < Ratio(s, factor)(list[j]);
    }
  }

  // ----- one map for all ratios

  /** The collateral grew by a factor, and the debt by a multiple of the collateral before. */
  ghost predicate Grown(s: State, r: State, x: Address, grow: real, extra: real) {
    x in s.troves && x in r.troves
    && EntireColl(r, x) == grow * EntireColl(s, x) && EntireDebt(r, x) == EntireDebt(s, x) + extra * EntireColl(s, x)
  }

  lemma UnchangedGrown(s: State, r: State, x: Address)
    requires Unchanged(s, r, x)
    ensures Grown(s, r, x, 1.0, 0.0)
  {
  }

  lemma SpreadGrown(p: State, r: State, coll: real, debt: real, x: Address, grow: real, extra: real)
    requires Inv(p) && Spread(p, r, coll, debt) && x in p.troves
    requires grow == 1.0 + Rate(p) * (coll / p.totalStakes) && extra == Rate(p) * (debt / p.totalStakes)
    ensures Grown(p, r, x, grow, extra)
  {
    hide EntireColl, EntireDebt, RateOf, Balanced;
    assert TroveOk(p, x);
    GrownAlgebra(p.troves[x].stake, Rate(p), EntireColl(p, x), coll / p.totalStakes, debt / p.totalStakes);
  }

  lemma GrownAlgebra(stake: real, rate: real, coll: real, k: real, d: real)
    requires Times(stake, rate, coll)
    ensures coll + stake * k == (1.0 + rate * k) * coll && stake * d == rate * d * coll
  {
  }

  /** A batch moves every trove it does not liquidate by the same map. */
  lemma BatchGrows(s: State, cuts: seq<Cut>) returns (grow: real, extra: real)
    requires Inv(s)
    ensures grow >= 1.0 && extra >= 0.0
    ensures forall x | x in s.troves && !Touches(Liquidate(cuts), x) :: Grown(s, LiquidateBatch(s, cuts), x, grow, extra)
  {
    hide Inv, Spread, Touches, Grown, CutColl, CutDebt, LiquidateBatch;
    var r := LiquidateBatch(s, cuts);
    BatchInv(s, cuts);
    grow, extra := 1.0, 0.0;
    if r == s {
      forall x | x in s.troves ensures Grown(s, r, x, grow, extra) {
        UnchangedGrown(s, s, x);
      }
    } else {
      var p := DropAll(s, cuts);
      DropAllInv(s, cuts);
      grow, extra := SpreadFactors(p, r, CutColl(cuts), CutDebt(cuts));
      forall x | x in s.troves && !Touches(Liquidate(cuts), x) ensures Grown(s, r, x, grow, extra) {
        Survives(s, cuts, x);
        SpreadGrown(p, r, CutColl(cuts), CutDebt(cuts), x, grow, extra);
        FromUnchanged(s, p, r, x, grow, extra);
      }
    }
  }

  lemma SpreadFactors(p: State, r: State, coll: real, debt: real) returns (grow: real, extra: real)
    requires Inv(p) && Spread(p, r, coll, debt) && coll >= 0.0 && debt >= 0.0
    ensures grow == 1.0 + Rate(p) * (coll / p.totalStakes) && extra == Rate(p) * (debt / p.totalStakes)
    ensures grow >= 1.0 && extra >= 0.0
  {
    RatePositive(p);
    assert p.totalStakes > 0.0;
    hide Inv, Spread, Rate;
    Factors(Rate(p), coll, p.totalStakes);
    Factors(Rate(p), debt, p.totalStakes);
    grow, extra := 1.0 + Rate(p) * (coll / p.totalStakes), Rate(p) * (debt / p.totalStakes);
  }

  lemma Factors(rate: real, amount: real, total: real)
    requires rate > 0.0 && amount >= 0.0 && total > 0.0
    ensures rate * (amount / total) >= 0.0
  {
    Quotient(amount, total);
    Product(rate, amount / total);
  }

  lemma FromUnchanged(s: State, p: State, r: State, x: Address, grow: real, extra: real)
    requires Unchanged(s, p, x) && Grown(p, r, x, grow, extra)
    ensures Grown(s, r, x, grow, extra)
  {
  }

  /** So does every operation on other troves. */
  lemma StepGrows(s: State, op: Op) returns (grow: real, extra: real)
    requires Inv(s)
    ensures grow >= 1.0 && extra >= 0.0
    ensures forall x | x in s.troves && !Touches(op, x) :: Grown(s, Step(s, op), x, grow, extra)
  {
    hide Inv, Grown, LiquidateBatch, Unchanged;
    var r := Step(s, op);
    if op.Liquidate? {
      grow, extra := BatchGrows(s, op.cuts);
    } else {
      grow, extra := 1.0, 0.0;
      OneTouched(s, op);
      forall x | x in s.troves && !Touches(op, x) ensures Grown(s, r, x, grow, extra) {
        UnchangedGrown(s, r, x);
      }
    }
  }

  lemma OneTouched(s: State, op: Op)
    requires Inv(s) && !op.Liquidate?
    ensures OthersUnchanged(s, Step(s, op), op.borrower)
  {
    hide Inv, Opened, Adjusted, Apply, Drop, Unchanged;
    match op
    case Open(b, c, d) => OpenInv(s, b, c, d);
    case ApplyRewards(b) => AppliedOne(s, b);
    case Adjust(b, c, d) => AdjustInv(s, b, c, d);
    case Close(b) => ClosedOne(s, b);
  }

  lemma AppliedOne(s: State, b: Address)
    requires Inv(s)
    ensures OthersUnchanged(s, Applied(s, b), b)
  {
    hide Inv, Apply;
    if b in s.troves { ApplyInv(s, b); }
  }

  lemma ClosedOne(s: State, b: Address)
    requires Inv(s)
    ensures OthersUnchanged(s, Closed(s, b), b)
  {
    hide Inv, Drop;
    if b in s.troves { DropInv(s, b); }
  }

  lemma GrownTwice(s: State, p: State, r: State, x: Address, grow: real, extra: real, grow2: real, extra2: real)
    requires Grown(s, p, x, grow, extra) && Grown(p, r, x, grow2, extra2)
    ensures Grown(s, r, x, grow2 * grow, extra + extra2 * grow)
  {
    hide EntireColl, EntireDebt;
    var c := EntireColl(s, x);
    assert grow2 * (grow * c) == grow2 * grow * c && extra2 * (grow * c) == extra2 * grow * c;
  }

  /** Over every run of operations on other troves, all troves of a list are moved by one map. */
  lemma {:induction false} RunGrows(s: State, ops: seq<Op>, list: seq<Address>) returns (grow: real, extra: real)
    requires Inv(s) && forall x | x in list :: x in s.troves
    requires forall op, x | op in ops && x in list :: !Touches(op, x)
    ensures grow >= 1.0 && extra >= 0.0
    ensures forall x | x in list :: Grown(s, Run(s, ops), x, grow, extra)
    decreases |ops|
  {
    hide Inv, Grown, Step, Touches;
    if ops == [] {
      grow, extra := 1.0, 0.0;
      forall x | x in list ensures Grown(s, Run(s, ops), x, grow, extra) {
        UnchangedGrown(s, s, x);
      }
    } else {
      var p := Step(s, ops[0]);
      StepInv(s, ops[0]);
      var g, e := StepGrows(s, ops[0]);
      forall x | x in list ensures x in p.troves && Grown(s, p, x, g, e) {
        assert ops[0] in ops;
        GrownIn(s, p, x, g, e);
      }
      assert forall op | op in ops[1..] :: op in ops;
      var g2, e2 := RunGrows(p, ops[1..], list);
      grow, extra := g2 * g, e + e2 * g;
      AtLeastOne(g, g2, e2);
      forall x | x in list ensures Grown(s, Run(s, ops), x, grow, extra) {
        GrownTwice(s, p, Run(p, ops[1..]), x, g, e, g2, e2);
      }
    }
  }

  lemma GrownIn(s: State, r: State, x: Address, grow: real, extra: real)
    requires Grown(s, r, x, grow, extra)
    ensures x in r.troves
  {
  }

  lemma AtLeastOne(g: real, g2: real, e2: real)
    requires g >= 1.0 && g2 >= 1.0 && e2 >= 0.0
    ensures g2 * g >= 1.0 && e2 * g >= 0.0
  {
    LessEqualTimes(1.0, g2, g);
    Product(e2, g);
  }

  // ----- how far a tie can come apart

  ghost function RealRatio(s: State, x: Address): real
    requires x in s.troves && EntireDebt(s, x) > 0.0
  {
    EntireColl(s, x) / EntireDebt(s, x)
  }

  /** The map never widens a gap between two ratios by more than the growth of the collateral. */
  lemma GapGrows(cA: real, dA: real, cB: real, dB: real, grow: real, extra: real, a: real, b: real, a2: real, b2: real)
    requires cA > 0.0 && dA > 0.0 && cB > 0.0 && dB > 0.0 && grow >= 1.0 && extra >= 0.0
    requires a == cA / dA && b == cB / dB && a2 == grow * cA / (dA + extra * cA) && b2 == grow * cB / (dB + extra * cB)
    ensures a <= b ==> a2 <= b2 && b2 - a2 <= grow * (b - a)
    ensures b <= a ==> b2 <= a2
  {
    Mapped(cA, dA, grow, extra, a, a2);
    Mapped(cB, dB, grow, extra, b, b2);
    GapMapped(a, b, a2, b2, 1.0 + extra * a, 1.0 + extra * b, grow, extra);
  }

  lemma GapMapped(a: real, b: real, a2: real, b2: real, p: real, q: real, grow: real, extra: real)
    requires p == 1.0 + extra * a && q == 1.0 + extra * b && a2 * p == grow * a && b2 * q == grow * b
    requires p >= 1.0 && q >= 1.0 && grow >= 1.0
    ensures a <= b ==> a2 <= b2 && b2 - a2 <= grow * (b - a)
    ensures b <= a ==> b2 <= a2
  {
    GapTimes(a, b, a2, b2, p, q, grow, extra);
    LessEqualTimes(1.0, p, q);
    SignOf(grow, b - a);
    GapShrinks(p * q, b2 - a2, grow * (b - a));
  }

  lemma SignOf(grow: real, gap: real)
    requires grow >= 1.0
    ensures gap >= 0.0 ==> grow * gap >= 0.0
    ensures gap <= 0.0 ==> grow * gap <= 0.0
  {
  }

  lemma GapShrinks(w: real, gap: real, g: real)
    requires w >= 1.0 && gap * w == g
    ensures g >= 0.0 ==> 0.0 <= gap <= g
    ensures g <= 0.0 ==> gap <= 0.0
  {
    if g >= 0.0 {
      CancelLessEqual(w, 0.0, gap);
      LessEqualTimes(1.0, w, gap);
    } else {
      CancelLessEqual(w, gap, 0.0);
    }
  }

  lemma Mapped(c: real, d: real, grow: real, extra: real, a: real, a2: real)
    requires c > 0.0 && d > 0.0 && grow >= 1.0 && extra >= 0.0 && a == c / d && a2 == grow * c / (d + extra * c)
    ensures a > 0.0 && 1.0 + extra * a >= 1.0 && a2 * (1.0 + extra * a) == grow * a
  {
    Quotient(c, d);
    Product(extra, c);
    Product(extra, a);
    Quotient(grow * c, d + extra * c);
    var p := 1.0 + extra * a;
    assert p * d == d + extra * c by { assert extra * a * d == extra * (a * d); }
    assert a2 * p * d == grow * a * d by { assert a2 * p * d == a2 * (p * d) && grow * a * d == grow * (a * d); }
    CancelLessEqual(d, a2 * p, grow * a);
    CancelLessEqual(d, grow * a, a2 * p);
  }

  lemma GapTimes(a: real, b: real, a2: real, b2: real, p: real, q: real, grow: real, extra: real)
    requires p == 1.0 + extra * a && q == 1.0 + extra * b && a2 * p == grow * a && b2 * q == grow * b
    ensures (b2 - a2) * (p * q) == grow * (b - a)
  {
    assert (b2 - a2) * (p * q) == (b2 * q) * p - (a2 * p) * q;
    assert grow * b * p - grow * a * q == grow * (b * p - a * q);
    assert b * p - a * q == b - a;
  }

  /** Two truncated ratios of which the first is at least the second. */
  lemma TruncatedGap(x: real, y: real)
    requires x.Floor >= y.Floor
    ensures y - x < 1.0
  {
  }

  /** Two troves that are sorted at one precision, after their ratios moved by one map, at another. */
  lemma PairComesApart(s: State, r: State, x: Address, y: Address, grow: real, extra: real, factor: real, later: real)
    requires Inv(s) && Inv(r) && Grown(s, r, x, grow, extra) && Grown(s, r, y, grow, extra) && grow >= 1.0 && extra >= 0.0
    requires factor > 0.0 && later >= 0.0 && Ratio(s, factor)(x) >= Ratio(s, factor)(y)
    ensures Ratio(r, later)(y) as real < Ratio(r, later)(x) as real + 1.0 + grow * later / factor
  {
    EntirePositive(s, x);
    EntirePositive(s, y);
    EntirePositive(r, x);
    EntirePositive(r, y);
    TruncatedIs(s, x, factor);
    TruncatedIs(s, y, factor);
    TruncatedIs(r, x, later);
    TruncatedIs(r, y, later);
    hide Inv, Ratio, Truncated;
    PairGap(s, r, x, y, grow, extra);
    hide EntireColl, EntireDebt, Grown;
    var a, b, a2, b2 := RealRatio(s, x), RealRatio(s, y), RealRatio(r, x), RealRatio(r, y);
    hide RealRatio, GapBound, FloorOf;
    ApartBy(a, b, a2, b2, grow, factor, later);
  }

  function FloorOf(ratio: real, factor: real): int { (ratio * factor).Floor }

  /** How far `b` is above `a` grows at most by `grow`, and not at all if it is below. */
  ghost predicate GapBound(a: real, b: real, a2: real, b2: real, grow: real) {
    (a <= b ==> b2 - a2 <= grow * (b - a)) && (b <= a ==> b2 <= a2)
  }

  lemma PairGap(s: State, r: State, x: Address, y: Address, grow: real, extra: real)
    requires Grown(s, r, x, grow, extra) && Grown(s, r, y, grow, extra) && grow >= 1.0 && extra >= 0.0
    requires EntireColl(s, x) > 0.0 && EntireDebt(s, x) > 0.0 && EntireColl(s, y) > 0.0 && EntireDebt(s, y) > 0.0
    requires EntireDebt(r, x) > 0.0 && EntireDebt(r, y) > 0.0
    ensures GapBound(RealRatio(s, x), RealRatio(s, y), RealRatio(r, x), RealRatio(r, y), grow)
  {
    hide EntireColl, EntireDebt;
    GapGrows(EntireColl(s, x), EntireDebt(s, x), EntireColl(s, y), EntireDebt(s, y), grow, extra,
             RealRatio(s, x), RealRatio(s, y), RealRatio(r, x), RealRatio(r, y));
  }

  lemma TruncatedIs(s: State, x: Address, factor: real)
    requires x in s.troves && EntireColl(s, x) > 0.0 && EntireDebt(s, x) > 0.0 && factor >= 0.0
    ensures Ratio(s, factor)(x) == FloorOf(RealRatio(s, x), factor)
  {
    TruncatedQuotient(EntireColl(s, x), EntireDebt(s, x), factor, RealRatio(s, x));
    hide Truncated, EntireColl, EntireDebt, RealRatio;
  }

  lemma ApartBy(a: real, b: real, a2: real, b2: real, grow: real, factor: real, later: real)
    requires grow >= 1.0 && factor > 0.0 && later >= 0.0 && FloorOf(a, factor) >= FloorOf(b, factor)
    requires GapBound(a, b, a2, b2, grow)
    ensures FloorOf(b2, later) as real < FloorOf(a2, later) as real + 1.0 + grow * later / factor
  {
    Product(grow, later);
    var k := grow * later / factor;
    assert k * factor == grow * later;
    CancelLessEqual(factor, 0.0, k);
    TruncatedGap(a * factor, b * factor);
    if a <= b {
      var gap, gap2 := b - a, b2 - a2;
      var units := GapOf(a, b, factor, gap);
      ScaledGap(gap, gap2, grow, factor, later, k, units);
      var widened := gap2 * later;
      assert widened == b2 * later - a2 * later;
    } else {
      LessEqualTimes(b2, a2, later);
    }
  }

  lemma GapOf(a: real, b: real, factor: real, gap: real) returns (units: real)
    requires gap == b - a && b * factor - a * factor < 1.0
    ensures units == gap * factor && units < 1.0
  {
    units := gap * factor;
    assert units == b * factor - a * factor;
  }

  lemma ScaledGap(gap: real, gap2: real, grow: real, factor: real, later: real, k: real, units: real)
    requires gap >= 0.0 && gap2 <= grow * gap && units == gap * factor && units < 1.0
    requires later >= 0.0 && k >= 0.0 && k * factor == grow * later
    ensures gap2 * later <= k
  {
    LessEqualTimes(gap2, grow * gap, later);
    assert grow * gap * later == k * units by { assert grow * later * gap == k * factor * gap; }
    PartAtMost(units, k);
  }

  /**
   The list a contract keeps by truncated ratios: after a run of operations on other troves, neighbours or not,
   no later trove is above an earlier one by more units than one and the growth of the collateral, which is the
   same for all of them.
   */
  lemma RunKeepsNearlySorted(s: State, list: seq<Address>, ops: seq<Op>, factor: real, later: real) returns (grow: real)
    requires Inv(s) && factor > 0.0 && later >= 0.0 && Sorted(list, Ratio(s, factor)) && forall x | x in list :: x in s.troves
    requires forall op, x | op in ops && x in list :: !Touches(op, x)
    ensures forall x | x in list :: x in Run(s, ops).troves && EntireColl(Run(s, ops), x) == grow * EntireColl(s, x)
    ensures forall i, j | 0 <= i < j < |list| ::
              Ratio(Run(s, ops), later)(list[j]) as real < Ratio(Run(s, ops), later)(list[i]) as real + 1.0 + grow * later / factor
  {
    hide Inv, Run, Touches, Ratio;
    var extra;
    grow, extra := RunGrows(s, ops, list);
    var r := Run(s, ops);
    RunInv(s, ops);
    forall i, j | 0 <= i < j < |list|
      ensures Ratio(r, later)(list[j]) as real < Ratio(r, later)(list[i]) as real + 1.0 + grow * later / factor
    {
      assert list[i] in list && list[j] in list;
      PairComesApart(s, r, list[i], list[j], grow, extra, factor, later);
    }
  }

  // ----- a tie that comes apart

  /** After a run from the empty system a list is sorted by truncated ratios, and after one more batch it is not. */
  ghost predicate ComesApart(ops: seq<Op>, list: seq<Address>, cut: Cut, factor: real)
    requires factor >= 0.0
  {
    var s := Run(EMPTY, ops);
    CarriedOut(s, [cut]) && cut.borrower !in list && (forall x | x in list :: x in s.troves)
    && Sorted(list, Ratio(s, factor)) && !Sorted(list, Ratio(LiquidateBatch(s, [cut]), factor))
  }

  const LOWER := Trove(1.2, 1.0, 1.2, 0.0, 0.0)
  const HIGHER := Trove(1.8, 1.0, 1.8, 0.0, 0.0)
  const GONE := Trove(3.0, 0.9, 3.0, 0.0, 0.0)

  const TIE_1 := State(map[1 := LOWER], 0.0, 0.0, 1.2, 0.0, 0.0, 1.2, 1.0, 0.0, 0.0)
  const TIE_2 := State(map[1 := LOWER, 2 := HIGHER], 0.0, 0.0, 3.0, 0.0, 0.0, 3.0, 2.0, 0.0, 0.0)
  const TIE_3 := State(map[1 := LOWER, 2 := HIGHER, 3 := GONE], 0.0, 0.0, 6.0, 0.0, 0.0, 6.0, 2.9, 0.0, 0.0)
  const APART := State(map[1 := LOWER, 2 := HIGHER], 1.0, 0.3, 3.0, 3.0, 6.0, 3.0, 2.0, 3.0, 0.9)

  /** Collateral 1.2 and 1.8 for a debt of 1 both count as one; after 3 of collateral and 0.9 of debt are spread they count as one and two. */
  lemma TieComesApart(ops: seq<Op>, cut: Cut)
    requires ops == [Open(1, 1.2, 1.0), Open(2, 1.8, 1.0), Open(3, 3.0, 0.9)] && cut == Cut(3, 3.0, 0.9)
    ensures ComesApart(ops, [1, 2], cut, 1.0)
  {
    hide Run, Step, LiquidateBatch, CarriedOut, Ratio;
    TieOpens();
    TieBatch(cut);
    RunOfThree(EMPTY, ops[0], ops[1], ops[2]);
    assert ops == [ops[0], ops[1], ops[2]];
    TieRatios();
    var list: seq<Address> := [1, 2];
    assert list[0] == 1 && list[1] == 2;
  }

  lemma TieOpens()
    ensures Step(EMPTY, Open(1, 1.2, 1.0)) == TIE_1 && Step(TIE_1, Open(2, 1.8, 1.0)) == TIE_2
    ensures Step(TIE_2, Open(3, 3.0, 0.9)) == TIE_3
  {
    FirstOpen(EMPTY, 1, 1.2, 1.0);
    FirstOpen(TIE_1, 2, 1.8, 1.0);
    FirstOpen(TIE_2, 3, 3.0, 0.9);
    hide Step;
    assert EMPTY.troves[1 := LOWER] == TIE_1.troves && TIE_1.troves[2 := HIGHER] == TIE_2.troves;
    assert TIE_2.troves[3 := GONE] == TIE_3.troves;
  }

  /** Before the first liquidation the stake is the collateral. */
  lemma FirstOpen(s: State, b: Address, coll: real, debt: real)
    requires b !in s.troves && coll > 0.0 && debt > 0.0 && s.collSnapshot == 0.0
    ensures Step(s, Open(b, coll, debt))
            == s.(troves := s.troves[b := Trove(coll, debt, coll, s.lColl, s.lDebt)], totalStakes := s.totalStakes + coll,
                  activeColl := s.activeColl + coll, activeDebt := s.activeDebt + debt)
  {
  }

  lemma TieBatch(cut: Cut)
    requires cut == Cut(3, 3.0, 0.9)
    ensures CarriedOut(TIE_3, [cut]) && LiquidateBatch(TIE_3, [cut]) == APART
  {
    RawBatch(TIE_3, cut);
    var d := Drop(TIE_3, 3);
    assert TIE_3.troves - {3} == APART.troves;
    assert [cut][0] == cut && [cut][1..] == [];
    assert CutsFit(TIE_3, [cut]) && DropAll(TIE_3, [cut]) == d && CutColl([cut]) == 3.0 && CutDebt([cut]) == 0.9;
  }

  lemma RunOfThree(s: State, a: Op, b: Op, c: Op)
    ensures Run(s, [a, b, c]) == Step(Step(Step(s, a), b), c)
  {
    hide Step;
    assert [a, b, c][1..] == [b, c] && [b, c][1..] == [c] && [c][1..] == [];
    assert Run(s, [a, b, c]) == Run(Step(s, a), [b, c]);
    assert Run(Step(s, a), [b, c]) == Run(Step(Step(s, a), b), [c]);
  }

  lemma TieRatios()
    ensures Ratio(TIE_3, 1.0)(1) == 1 && Ratio(TIE_3, 1.0)(2) == 1
    ensures Ratio(APART, 1.0)(1) == 1 && Ratio(APART, 1.0)(2) == 2
  {
    assert EntireColl(TIE_3, 1) == 1.2 && EntireDebt(TIE_3, 1) == 1.0 && EntireColl(TIE_3, 2) == 1.8 && EntireDebt(TIE_3, 2) == 1.0;
    assert EntireColl(APART, 1) == 2.4 && EntireDebt(APART, 1) == 1.36 && EntireColl(APART, 2) == 3.6 && EntireDebt(APART, 2) == 1.54;
    hide EntireColl, EntireDebt;
    assert (1.2 / 1.0).Floor == 1 && (1.8 / 1.0).Floor == 1;
    assert (2.4 / 1.36).Floor == 1 && (3.6 / 1.54).Floor == 2;
  }

  // ----- the list and the system together

  /** Where an operation puts the trove it touches: in front of position `k`, judged at the precision `factor`. */
  datatype Place = Place(k: nat, factor: real)

  /** The list holds the active troves, each once. */
  ghost predicate Lists(s: State, list: seq<Address>) {
    Distinct(list) && forall x :: x in list <==> x in s.troves
  }

  /** The operation gives its trove a new ratio. */
  predicate Moves(s: State, op: Op) {
    match op
    case Open(b, c, d) => b !in s.troves && c > 0.0 && d > 0.0
    case Adjust(b, c, d) => b in s.troves && EntireColl(s, b) + c > 0.0 && EntireDebt(s, b) + d > 0.0
    case _ => false
  }

  /** Open inserts, adjust re-inserts, close and liquidation remove, the other operations leave the list alone. */
  ghost function NextList(s: State, list: seq<Address>, op: Op, place: Place): seq<Address> {
    match op
    case Open(b, _, _) => if Moves(s, op) && place.k <= |list| then InsertAt(list, place.k, b) else list
    case Adjust(b, _, _) =>
      if Moves(s, op) && place.k <= |Without(list, b)| then InsertAt(Without(list, b), place.k, b) else list
    case ApplyRewards(_) => list
    case Close(b) => if b in s.troves && |s.troves| > 1 then Without(list, b) else list
    case Liquidate(cuts) => if CarriedOut(s, cuts) then Survivors(list, cuts) else list
  }

  /** The place is one that an insertion finds, between neighbours that bracket the truncated ratio, and it puts ties in exact order. */
  ghost predicate GoodPlace(s: State, rest: seq<Address>, b: Address, place: Place)
    requires b in s.troves && forall x | x in rest :: x in s.troves
  {
    place.factor >= 0.0 && Brackets(rest, Ratio(s, place.factor), Ratio(s, place.factor)(b), place.k)
    && (forall i | 0 <= i < place.k && Ratio(s, place.factor)(rest[i]) == Ratio(s, place.factor)(b) ::
          rest[i] in rest && !Above(s, b, rest[i]))
    && (forall i | place.k <= i < |rest| && Ratio(s, place.factor)(rest[i]) == Ratio(s, place.factor)(b) ::
          rest[i] in rest && !Above(s, rest[i], b))
  }

  /** Whatever a step inserts, it inserts at a good place. */
  ghost predicate WellPlaced(s: State, list: seq<Address>, op: Op, place: Place) {
    var r, rest := Step(s, op), if op.Liquidate? then list else Without(list, op.borrower);
    Moves(s, op) ==> op.borrower in r.troves && (forall x | x in rest :: x in r.troves) && GoodPlace(r, rest, op.borrower, place)
  }

  /** `b` is not above the troves before position `k`, and those from there on are not above it. */
  ghost predicate Fits(s: State, rest: seq<Address>, b: Address, k: nat) {
    k <= |rest| && b in s.troves && (forall x | x in rest :: x in s.troves)
    && forall i | 0 <= i < |rest| :: rest[i] in rest && if i < k then !Above(s, b, rest[i]) else !Above(s, rest[i], b)
  }

  /** A good place in an ordered list keeps it in order. */
  lemma InsertInOrder(s: State, rest: seq<Address>, b: Address, place: Place)
    requires Inv(s) && InOrder(s, rest) && b in s.troves && GoodPlace(s, rest, b, place)
    ensures InOrder(s, InsertAt(rest, place.k, b))
  {
    InOrderIsSorted(s, rest, place.factor);
    hide Inv, Above, Ratio;
    forall i | 0 <= i < |rest| ensures rest[i] in rest && if i < place.k then !Above(s, b, rest[i]) else !Above(s, rest[i], b) {
      BesidePlace(s, rest, b, place, i);
    }
    hide InOrder;
    FitInOrder(s, rest, b, place.k);
  }

  lemma FitInOrder(s: State, rest: seq<Address>, b: Address, k: nat)
    requires InOrder(s, rest) && Fits(s, rest, b, k)
    ensures InOrder(s, InsertAt(rest, k, b))
  {
    var longer := InsertAt(rest, k, b);
    hide Above;
    forall x | x in longer ensures x in s.troves {
      var i :| 0 <= i < |longer| && longer[i] == x;
    }
    forall i, j | 0 <= i < j < |longer| ensures longer[i] in longer && longer[j] in longer && !Above(s, longer[j], longer[i]) {
      FitPair(s, rest, b, k, i, j);
    }
  }

  lemma FitPair(s: State, rest: seq<Address>, b: Address, k: nat, i: nat, j: nat)
    requires InOrder(s, rest) && Fits(s, rest, b, k) && i < j <= |rest|
    ensures var longer := InsertAt(rest, k, b);
            longer[i] in s.troves && longer[j] in s.troves && !Above(s, longer[j], longer[i])
  {
    hide Above;
    if j == k {
      assert rest[i] in rest;
    } else if i == k {
      assert rest[j - 1] in rest;
    } else {
      var i', j' := if i < k then i else i - 1, if j < k then j else j - 1;
      assert rest[i'] in rest && rest[j'] in rest;
    }
  }

  lemma BesidePlace(s: State, rest: seq<Address>, b: Address, place: Place, i: nat)
    requires Inv(s) && InOrder(s, rest) && b in s.troves && GoodPlace(s, rest, b, place) && i < |rest|
    requires Sorted(rest, Ratio(s, place.factor))
    ensures rest[i] in rest && if i < place.k then !Above(s, b, rest[i]) else !Above(s, rest[i], b)
  {
    hide Inv, Above, Ratio;
    var ratio := Ratio(s, place.factor);
    if i < place.k {
      assert ratio(rest[i]) >= ratio(rest[place.k - 1]);
      if ratio(b) < ratio(rest[i]) { LargerRatio(s, b, rest[i], place.factor); }
    } else {
      assert ratio(rest[place.k]) >= ratio(rest[i]);
      if ratio(rest[i]) < ratio(b) { LargerRatio(s, rest[i], b, place.factor); }
    }
  }

  lemma InsertLists(list: seq<Address>, k: nat, b: Address)
    requires Distinct(list) && k <= |list| && b != NULL && b !in list
    ensures Distinct(InsertAt(list, k, b)) && forall x :: x in InsertAt(list, k, b) <==> x in list || x == b
  {
    InsertDistinct(list, k, b);
    assert InsertAt(list, k, b)[k] == b;
  }

  lemma {:induction false} DistinctWithout(list: seq<Address>, b: Address)
    requires Distinct(list)
    ensures Distinct(Without(list, b))
    decreases |list|
  {
    if b in list {
      var k :| 0 <= k < |list| && list[k] == b;
      WithoutDistinct(list, k);
    } else {
      WithoutAbsent(list, b);
    }
  }

  lemma {:induction false} DistinctSurvivors(list: seq<Address>, cuts: seq<Cut>)
    requires Distinct(list)
    ensures Distinct(Survivors(list, cuts))
    decreases |cuts|
  {
    if cuts != [] {
      DistinctWithout(list, cuts[0].borrower);
      DistinctSurvivors(Without(list, cuts[0].borrower), cuts[1..]);
    }
  }

  /** A batch takes away exactly its own troves. */
  lemma {:induction false} DropAllLeaves(s: State, cuts: seq<Cut>)
    requires CutsFit(s, cuts)
    ensures forall x :: x in DropAll(s, cuts).troves <==> x in s.troves && !Touches(Liquidate(cuts), x)
    decreases |cuts|
  {
    hide Touches;
    if cuts == [] {
      NothingTouched();
    } else {
      DropAllLeaves(Drop(s, cuts[0].borrower), cuts[1..]);
      TouchesSplit(cuts);
    }
  }

  lemma NothingTouched()
    ensures forall x :: !Touches(Liquidate([]), x)
  {
  }

  /** The troves that are active after a step. */
  lemma StepTroves(s: State, op: Op, x: Address)
    requires Inv(s)
    ensures x in Step(s, op).troves
            <==> match op
                 case Liquidate(cuts) => x in s.troves && !(CarriedOut(s, cuts) && Touches(op, x))
                 case Close(b) => x in s.troves && !(x == b && |s.troves| > 1)
                 case _ => x in s.troves || (Moves(s, op) && x == op.borrower)
  {
    if op.Liquidate? {
      BatchTroves(s, op.cuts, x);
    } else {
      OneTouched(s, op);
      TouchedStays(s, op);
      hide Inv, Opened, Adjusted, Closed, Applied, Unchanged, Touches;
    }
  }

  lemma BatchTroves(s: State, cuts: seq<Cut>, x: Address)
    ensures x in LiquidateBatch(s, cuts).troves <==> x in s.troves && !(CarriedOut(s, cuts) && Touches(Liquidate(cuts), x))
  {
    hide Touches, CutsFit, DropAll;
    if CarriedOut(s, cuts) {
      DropAllLeaves(s, cuts);
    }
  }

  /** Whether the trove of an operation is active after it. */
  lemma TouchedStays(s: State, op: Op)
    requires !op.Liquidate?
    ensures op.borrower in Step(s, op).troves
            <==> if op.Close? then op.borrower in s.troves && |s.troves| <= 1 else op.borrower in s.troves || Moves(s, op)
  {
    hide EntireColl, EntireDebt, Rate;
  }

  /** One step keeps the list in order. */
  lemma StepKeepsList(s: State, list: seq<Address>, op: Op, place: Place)
    requires Inv(s) && InOrder(s, list) && Lists(s, list) && WellPlaced(s, list, op, place)
    ensures InOrder(Step(s, op), NextList(s, list, op, place))
  {
    if op.Liquidate? {
      hide Inv, InOrder, Step, CarriedOut, Lists, WellPlaced;
      BatchList(s, list, op.cuts);
    } else if Moves(s, op) {
      hide Inv, InOrder, Step, Lists, WellPlaced, NextList, Moves;
      MovedInOrder(s, list, op, place);
    } else {
      RestInOrder(s, list, op);
      OneStays(s, list, op);
      hide Inv, InOrder, Step, Lists, WellPlaced;
    }
  }

  lemma MovedInOrder(s: State, list: seq<Address>, op: Op, place: Place)
    requires Inv(s) && InOrder(s, list) && Lists(s, list) && !op.Liquidate? && Moves(s, op) && WellPlaced(s, list, op, place)
    ensures InOrder(Step(s, op), NextList(s, list, op, place))
  {
    RestInOrder(s, list, op);
    StepInv(s, op);
    SameRest(s, list, op);
    MovedPlace(s, list, op, place);
    hide *;
    InsertInOrder(Step(s, op), Without(list, op.borrower), op.borrower, place);
  }

  lemma MovedPlace(s: State, list: seq<Address>, op: Op, place: Place)
    requires Lists(s, list) && !op.Liquidate? && Moves(s, op) && WellPlaced(s, list, op, place)
    ensures var r, rest := Step(s, op), Without(list, op.borrower);
            op.borrower in r.troves && (forall x | x in rest :: x in r.troves) && GoodPlace(r, rest, op.borrower, place)
            && place.k <= |rest| && NextList(s, list, op, place) == InsertAt(rest, place.k, op.borrower)
  {
    SameRest(s, list, op);
    hide Step, Ratio, Above;
  }

  /** One step keeps the list one of the active troves. */
  lemma StepKeepsTroves(s: State, list: seq<Address>, op: Op, place: Place)
    requires Inv(s) && Lists(s, list) && WellPlaced(s, list, op, place) && !Touches(op, NULL)
    ensures Lists(Step(s, op), NextList(s, list, op, place))
  {
    var next := NextList(s, list, op, place);
    NextDistinct(s, list, op, place);
    forall x ensures x in next <==> x in Step(s, op).troves {
      StepTroves(s, op, x);
      NextHolds(s, list, op, place, x);
    }
    hide Inv, Step, NextList, WellPlaced, Touches;
  }

  lemma NextDistinct(s: State, list: seq<Address>, op: Op, place: Place)
    requires Lists(s, list) && !Touches(op, NULL)
    ensures Distinct(NextList(s, list, op, place))
  {
    if op.Liquidate? {
      hide CarriedOut, Touches;
      DistinctSurvivors(list, op.cuts);
    } else {
      hide Distinct, Survivors, CarriedOut;
      DistinctWithout(list, op.borrower);
      if Moves(s, op) {
        SameRest(s, list, op);
        if place.k <= |Without(list, op.borrower)| {
          InsertLists(Without(list, op.borrower), place.k, op.borrower);
        }
      }
    }
  }

  lemma NextHolds(s: State, list: seq<Address>, op: Op, place: Place, x: Address)
    requires Lists(s, list) && WellPlaced(s, list, op, place) && !Touches(op, NULL)
    ensures x in NextList(s, list, op, place)
            <==> match op
                 case Liquidate(cuts) => x in s.troves && !(CarriedOut(s, cuts) && Touches(op, x))
                 case Close(b) => x in s.troves && !(x == b && |s.troves| > 1)
                 case _ => x in s.troves || (Moves(s, op) && x == op.borrower)
  {
    hide CarriedOut, Ratio, Above, Step;
    if !op.Liquidate? && Moves(s, op) {
      SameRest(s, list, op);
      DistinctWithout(list, op.borrower);
      InsertLists(Without(list, op.borrower), place.k, op.borrower);
    }
  }

  lemma BatchList(s: State, list: seq<Address>, cuts: seq<Cut>)
    requires Inv(s) && InOrder(s, list)
    ensures InOrder(Step(s, Liquidate(cuts)), if CarriedOut(s, cuts) then Survivors(list, cuts) else list)
  {
    hide Inv, CarriedOut, Redistribute, DropAll, InOrder;
    if CarriedOut(s, cuts) {
      BatchKeepsListInOrder(s, list, cuts);
    }
  }

  /** The other troves stay in order. */
  lemma RestInOrder(s: State, list: seq<Address>, op: Op)
    requires Inv(s) && InOrder(s, list) && !op.Liquidate?
    ensures InOrder(Step(s, op), Without(list, op.borrower))
  {
    hide Inv, Above, Step;
    var rest, r := Without(list, op.borrower), Step(s, op);
    WithoutInOrder(s, list, op.borrower);
    forall x | x in rest ensures x in r.troves {
      StepKeepsOrder(s, op, x, x);
    }
    forall i, j | 0 <= i < j < |rest| ensures rest[i] in rest && rest[j] in rest && !Above(r, rest[j], rest[i]) {
      assert rest[i] in rest && rest[j] in rest;
      StepKeepsOrder(s, op, rest[j], rest[i]);
    }
  }

  lemma SameRest(s: State, list: seq<Address>, op: Op)
    requires Moves(s, op) && Lists(s, list)
    ensures op.Open? ==> Without(list, op.borrower) == list
  {
    if op.Open? { WithoutAbsent(list, op.borrower); }
  }

  /** A step that gives no trove a new ratio leaves the list in order, with or without the trove it closes. */
  lemma OneStays(s: State, list: seq<Address>, op: Op)
    requires Inv(s) && InOrder(s, list) && !op.Liquidate? && !Moves(s, op)
    ensures (op.Close? && op.borrower in s.troves && |s.troves| > 1) || InOrder(Step(s, op), list)
  {
    if op.ApplyRewards? && op.borrower in s.troves {
      AppliedKeepsAmounts(s, op.borrower);
      hide Inv, Apply;
      SameAmountsInOrder(s, Apply(s, op.borrower), list);
    } else {
      RefusedStep(s, op);
      hide Step, Inv, InOrder;
    }
  }

  lemma RefusedStep(s: State, op: Op)
    requires !op.Liquidate? && !Moves(s, op)
    ensures Step(s, op) == s || ((op.ApplyRewards? || (op.Close? && |s.troves| > 1)) && op.borrower in s.troves)
  {
    hide EntireColl, EntireDebt;
  }

  lemma SameAmountsInOrder(s: State, r: State, list: seq<Address>)
    requires InOrder(s, list) && r.troves.Keys == s.troves.Keys
    requires forall x | x in s.troves :: EntireColl(r, x) == EntireColl(s, x) && EntireDebt(r, x) == EntireDebt(s, x)
    ensures InOrder(r, list)
  {
    hide EntireColl, EntireDebt, Exceeds;
  }

  /** Applying rewards changes no entire amount. */
  lemma AppliedKeepsAmounts(s: State, b: Address)
    requires Inv(s) && b in s.troves
    ensures Apply(s, b).troves.Keys == s.troves.Keys
    ensures forall x | x in s.troves :: EntireColl(Apply(s, b), x) == EntireColl(s, x) && EntireDebt(Apply(s, b), x) == EntireDebt(s, x)
  {
    ApplyInv(s, b);
    hide Inv, Apply;
    var r := Apply(s, b);
    forall x | x in s.troves ensures EntireColl(r, x) == EntireColl(s, x) && EntireDebt(r, x) == EntireDebt(s, x) {
      if x == b {
        NothingOwed(r, b);
      } else {
        SameAmounts(s, r, x);
      }
    }
  }

  lemma NothingOwed(s: State, b: Address)
    requires b in s.troves && Settled(s, b)
    ensures EntireColl(s, b) == s.troves[b].coll && EntireDebt(s, b) == s.troves[b].debt
  {
  }

  lemma SameAmounts(s: State, r: State, x: Address)
    requires Unchanged(s, r, x)
    ensures EntireColl(r, x) == EntireColl(s, x) && EntireDebt(r, x) == EntireDebt(s, x)
  {
  }

  ghost function RunList(s: State, list: seq<Address>, ops: seq<Op>, places: seq<Place>): seq<Address>
    requires |ops| == |places|
    decreases |ops|
  {
    if ops == [] then list
    else RunList(Step(s, ops[0]), NextList(s, list, ops[0], places[0]), ops[1..], places[1..])
  }

  ghost predicate AllWellPlaced(s: State, list: seq<Address>, ops: seq<Op>, places: seq<Place>)
    requires |ops| == |places|
    decreases |ops|
  {
    ops == []
    || (!Touches(ops[0], NULL) && WellPlaced(s, list, ops[0], places[0])
        && AllWellPlaced(Step(s, ops[0]), NextList(s, list, ops[0], places[0]), ops[1..], places[1..]))
  }

  /**
   Over every run, with an insertion, re-insertion or removal at each operation that touches a trove and none
   otherwise, the list holds the active troves in order.
   */
  lemma {:induction false} RunKeepsList(s: State, list: seq<Address>, ops: seq<Op>, places: seq<Place>)
    requires Inv(s) && InOrder(s, list) && Lists(s, list) && |ops| == |places| && AllWellPlaced(s, list, ops, places)
    ensures InOrder(Run(s, ops), RunList(s, list, ops, places)) && Lists(Run(s, ops), RunList(s, list, ops, places))
    decreases |ops|
  {
    hide Inv, InOrder, Lists, WellPlaced, Step, NextList;
    if ops != [] {
      StepInv(s, ops[0]);
      StepKeepsList(s, list, ops[0], places[0]);
      StepKeepsTroves(s, list, ops[0], places[0]);
      RunKeepsList(Step(s, ops[0]), NextList(s, list, ops[0], places[0]), ops[1..], places[1..]);
    }
  }

  /** From the empty system: the list of every reachable system is sorted for whoever compares truncated ratios. */
  lemma ReachableListSorted(ops: seq<Op>, places: seq<Place>, factor: real)
    requires |ops| == |places| && AllWellPlaced(EMPTY, [], ops, places) && factor >= 0.0
    ensures Sorted(RunList(EMPTY, [], ops, places), Ratio(Run(EMPTY, ops), factor))
  {
    NothingListed();
    hide *;
    RunInv(EMPTY, ops);
    RunKeepsList(EMPTY, [], ops, places);
    InOrderIsSorted(Run(EMPTY, ops), RunList(EMPTY, [], ops, places), factor);
  }

  lemma NothingListed()
    ensures Inv(EMPTY) && InOrder(EMPTY, []) && Lists(EMPTY, [])
  {
    EmptyInv();
    hide Inv, Above;
  }
}
