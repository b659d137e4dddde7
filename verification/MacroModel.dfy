/**
 One period of the macro simulation, over a table of troves: liquidation, closing, adjustment,
 opening, and the arbitrage that holds the LUSD price between its floor and its ceiling.
 Floats are reals. Random draws, the fractional power and the tie order of the table sort are inputs.
 */
module MacroModel {
  import opened Arithmetic

  datatype Trove = Trove(
    etherPrice: real, etherQuantity: real, crInitial: real,
    supply: real, inattention: real, crCurrent: real)
  {
    function Collateral(): real { etherPrice * etherQuantity }

    /** What every row of the table satisfies, whatever the ether price does. */
    predicate Valid() {
      etherPrice > 0.0 && etherQuantity > 0.0 && crInitial >= 1.1 && supply > 0.0 && inattention > 0.0
    }

    /** Worth at least 110% of its supply. */
    predicate Safe() {
      Valid() && Collateral() >= 1.1 * supply
    }

    predicate Fresh()
      requires Valid()
    {
      crCurrent == Collateral() / supply
    }

    /** The ratio is within the owner's attention band. */
    predicate InBand() {
      Valid() && crInitial * (1.0 - inattention) <= Collateral() / supply <= crInitial * (1.0 + 2.0 * inattention)
    }
  }

  predicate AllSafe(troves: seq<Trove>) { forall t | t in troves :: t.Safe() }

  predicate Priced(troves: seq<Trove>, price: real) { forall t | t in troves :: t.etherPrice == price }

  function Supply(troves: seq<Trove>): real {
    if troves == [] then 0.0 else Supply(troves[..|troves| - 1]) + troves[|troves| - 1].supply
  }

  lemma {:induction false} SupplyAppend(a: seq<Trove>, b: seq<Trove>)
    ensures Supply(a + b) == Supply(a) + Supply(b)
    decreases |b|
  {
    if b == [] {
      assert a + b == a;
    } else {
      assert (a + b)[..|a + b| - 1] == a + b[..|b| - 1];
      SupplyAppend(a, b[..|b| - 1]);
    }
  }

  lemma SupplyOne(t: Trove)
    ensures Supply([t]) == t.supply
  {
    assert Supply([]) == 0.0;
    assert [t][..0] == [];
  }

  lemma {:induction false} SupplyPositive(troves: seq<Trove>)
    requires forall t | t in troves :: t.supply > 0.0
    ensures Supply(troves) >= 0.0 && (troves != [] ==> Supply(troves) > 0.0)
  {
    if troves != [] {
      SupplyPositive(troves[..|troves| - 1]);
    }
  }

  /** The order of the rows does not matter. */
  lemma {:induction false} SupplyPermuted(a: seq<Trove>, b: seq<Trove>)
    requires multiset(a) == multiset(b)
    ensures Supply(a) == Supply(b)
    decreases |a|
  {
    if a == [] {
      assert |b| == |multiset(b)| == 0;
    } else {
      hide Supply;
      assert a[0] in multiset(b);
      var k :| 0 <= k < |b| && b[k] == a[0];
      SupplySplit(a, 0);
      SupplySplit(b, k);
      SupplyPermuted(WithoutRow(a, 0), WithoutRow(b, k));
    }
  }

  function WithoutRow(s: seq<Trove>, k: nat): (rest: seq<Trove>)
    requires k < |s|
    ensures |rest| == |s| - 1
  {
    s[..k] + s[k + 1..]
  }

  lemma SupplySplit(s: seq<Trove>, k: nat)
    requires k < |s|
    ensures Supply(s) == Supply(WithoutRow(s, k)) + s[k].supply
    ensures multiset(WithoutRow(s, k)) == multiset(s) - multiset{s[k]}
  {
    hide Supply;
    JoinAt(s, k);
    RowBetween(s[..k], s[k], s[k + 1..]);
  }

  lemma JoinAt(s: seq<Trove>, k: nat)
    requires k < |s|
    ensures s == s[..k] + ([s[k]] + s[k + 1..])
  {
  }

  lemma RowBetween(front: seq<Trove>, t: Trove, back: seq<Trove>)
    ensures Supply(front + ([t] + back)) == Supply(front + back) + t.supply
    ensures multiset(front + back) == multiset(front + ([t] + back)) - multiset{t}
  {
    hide Supply;
    SupplyAppend(front, [t] + back);
    SupplyAppend([t], back);
    SupplyAppend(front, back);
    SupplyOne(t);
  }

  // ---- Liquidation and closing ----

  /** Only the price and the ratio that follows from it are new: the ether, the debt and the owner's traits stay. */
  predicate Revalued(t: Trove, r: Trove, price: real) {
    r.etherQuantity == t.etherQuantity && r.supply == t.supply && r.crInitial == t.crInitial && r.inattention == t.inattention
    && r.etherPrice == price && t.supply > 0.0 && r.crCurrent == price * t.etherQuantity / t.supply
  }

  function Repriced(t: Trove, price: real): (r: Trove)
    requires price > 0.0 && t.Valid()
    ensures r.Valid() && r.Fresh() && r.supply == t.supply && r.etherPrice == price
    ensures Revalued(t, r, price)
  {
    t.(etherPrice := price, crCurrent := price * t.etherQuantity / t.supply)
  }

  /** The rows at a new ether price, with their ratios brought up to date. */
  function Refresh(troves: seq<Trove>, price: real): (r: seq<Trove>)
    requires price > 0.0 && forall t | t in troves :: t.Valid()
    ensures |r| == |troves| && Priced(r, price)
    ensures forall t | t in r :: t.Valid() && t.Fresh()
    ensures Supply(r) == Supply(troves)
  {
    hide Revalued;
    if troves == [] then []
    else
      var t := troves[|troves| - 1];
      var rest := Refresh(troves[..|troves| - 1], price);
      assert t in troves;
      var r := Repriced(t, price);
      SupplyAppend(rest, [r]); SupplyOne(r);
      rest + [r]
  }

  /** The rows on one side of a ratio of 110%, in order. */
  function Select(troves: seq<Trove>, solvent: bool): (r: seq<Trove>)
    ensures forall t | t in r :: t in troves && (t.crCurrent >= 1.1 <==> solvent)
  {
    if troves == [] then []
    else
      var t := troves[|troves| - 1];
      var rest := Select(troves[..|troves| - 1], solvent);
      if t.crCurrent >= 1.1 <==> solvent then rest + [t] else rest
  }

  lemma {:induction false} SelectSupply(troves: seq<Trove>)
    ensures Supply(Select(troves, true)) + Supply(Select(troves, false)) == Supply(troves)
  {
    hide Supply;
    if troves == [] {
      SupplyNone();
    } else {
      var init, t := troves[..|troves| - 1], troves[|troves| - 1];
      SelectSupply(init);
      assert troves == init + [t];
      SupplyAppend(init, [t]);
      SupplyAppend(Select(init, t.crCurrent >= 1.1), [t]);
      SupplyOne(t);
    }
  }

  lemma SupplyNone()
    ensures Supply([]) == 0.0
  {
  }

  lemma {:induction false} SelectSplits(troves: seq<Trove>)
    ensures multiset(Select(troves, true)) + multiset(Select(troves, false)) == multiset(troves)
  {
    if troves != [] {
      SelectSplits(troves[..|troves| - 1]);
      assert troves == troves[..|troves| - 1] + [troves[|troves| - 1]];
    }
  }

  lemma FreshSafe(t: Trove)
    requires t.Valid() && t.Fresh()
    ensures t.crCurrent >= 1.1 <==> t.Safe()
  {
    RatioAtLeast(t.Collateral(), t.supply);
  }

  lemma RatioAtLeast(a: real, b: real)
    requires b > 0.0
    ensures a / b >= 1.1 <==> a >= 1.1 * b
  {
    var q := a / b;
    assert q * b == a;
  }

  /** `rows` are the rows of `troves` at the positions `at`, in order, at a new ether price and otherwise as they were. */
  ghost predicate RowsAt(troves: seq<Trove>, price: real, at: seq<nat>, rows: seq<Trove>) {
    |at| == |rows| && (forall i, j | 0 <= i < j < |at| :: at[i] < at[j])
    && forall j | 0 <= j < |at| :: at[j] < |troves| && Revalued(troves[at[j]], rows[j], price)
  }

  /** The ether of the row is worth at least 110% of its supply at this price. */
  predicate Covers(t: Trove, price: real) { price * t.etherQuantity >= 1.1 * t.supply }

  /** The positions of the rows that are worth 110% of their supply at a price, or of those that are not. */
  ghost predicate Solvent(troves: seq<Trove>, price: real, at: seq<nat>, solvent: bool) {
    forall i: nat | i < |troves| :: i in at <==> (Covers(troves[i], price) <==> solvent)
  }

  /** A row is kept exactly if its ether is worth at least 110% of its supply at the new price. */
  lemma {:induction false} SelectedRows(troves: seq<Trove>, price: real, solvent: bool) returns (at: seq<nat>)
    requires price > 0.0 && forall t | t in troves :: t.Valid()
    ensures RowsAt(troves, price, at, Select(Refresh(troves, price), solvent)) && Solvent(troves, price, at, solvent)
    decreases |troves|
  {
    hide Supply, Revalued, RowsAt, Solvent, Covers, Trove.Valid, Trove.Fresh, Select;
    if troves == [] {
      at := [];
      NoRows(price, solvent);
    } else {
      var init, t := troves[..|troves| - 1], troves[|troves| - 1];
      assert t in troves;
      at := SelectedRows(init, price, solvent);
      var r := Repriced(t, price);
      SelectLast(Refresh(init, price), r, solvent);
      RatioIs(t, r, price);
      at := OneMoreRow(troves, price, at, Select(Refresh(init, price), solvent), r, solvent);
    }
  }

  lemma NoRows(price: real, solvent: bool)
    ensures RowsAt([], price, [], Select([], solvent)) && Solvent([], price, [], solvent)
  {
  }

  lemma SelectLast(rows: seq<Trove>, t: Trove, solvent: bool)
    ensures Select(rows + [t], solvent) == if t.crCurrent >= 1.1 <==> solvent then Select(rows, solvent) + [t] else Select(rows, solvent)
  {
    assert (rows + [t])[..|rows|] == rows;
  }

  lemma RatioIs(t: Trove, r: Trove, price: real)
    requires Revalued(t, r, price)
    ensures r.crCurrent >= 1.1 <==> Covers(t, price)
  {
    RatioAtLeast(price * t.etherQuantity, t.supply);
  }

  lemma OneMoreRow(troves: seq<Trove>, price: real, at: seq<nat>, rows: seq<Trove>, r: Trove, solvent: bool) returns (later: seq<nat>)
    requires troves != [] && RowsAt(troves[..|troves| - 1], price, at, rows) && Revalued(troves[|troves| - 1], r, price)
    requires Solvent(troves[..|troves| - 1], price, at, solvent)
    requires r.crCurrent >= 1.1 <==> Covers(troves[|troves| - 1], price)
    ensures RowsAt(troves, price, later, if r.crCurrent >= 1.1 <==> solvent then rows + [r] else rows)
    ensures Solvent(troves, price, later, solvent)
  {
    hide *;
    MoreRows(troves, price, at, rows, r);
    if r.crCurrent >= 1.1 <==> solvent {
      later := at + [|troves| - 1];
    } else {
      later := at;
    }
    MoreSolvent(troves, price, at, rows, later, solvent);
  }

  lemma MoreRows(troves: seq<Trove>, price: real, at: seq<nat>, rows: seq<Trove>, r: Trove)
    requires troves != [] && RowsAt(troves[..|troves| - 1], price, at, rows) && Revalued(troves[|troves| - 1], r, price)
    ensures RowsAt(troves, price, at, rows) && RowsAt(troves, price, at + [|troves| - 1], rows + [r])
  {
    hide Revalued;
    var last: nat := |troves| - 1;
    assert forall j | 0 <= j < |at| :: troves[..last][at[j]] == troves[at[j]];
  }

  lemma MoreSolvent(troves: seq<Trove>, price: real, at: seq<nat>, rows: seq<Trove>, later: seq<nat>, solvent: bool)
    requires troves != [] && RowsAt(troves[..|troves| - 1], price, at, rows) && Solvent(troves[..|troves| - 1], price, at, solvent)
    requires later == if Covers(troves[|troves| - 1], price) <==> solvent then at + [|troves| - 1] else at
    ensures Solvent(troves, price, later, solvent)
  {
    hide Revalued, Covers;
    var last: nat := |troves| - 1;
    forall i: nat | i < |troves| ensures i in later <==> (Covers(troves[i], price) <==> solvent) {
      if i < last {
        assert troves[..last][i] == troves[i];
      } else {
        assert forall j | 0 <= j < |at| :: at[j] < last;
      }
    }
  }

  method LiquidateTroves(troves: seq<Trove>, price: real)
    returns (kept: seq<Trove>, debtLiquidated: real, liquidated: seq<Trove>, ghost keep: seq<nat>, ghost lose: seq<nat>)
    requires price > 0.0 && forall t | t in troves :: t.Valid()
    ensures RowsAt(troves, price, keep, kept) && RowsAt(troves, price, lose, liquidated)
    ensures forall i: nat | i < |troves| :: i in keep <==> price * troves[i].etherQuantity >= 1.1 * troves[i].supply
    ensures forall i: nat | i < |troves| :: i in lose <==> price * troves[i].etherQuantity < 1.1 * troves[i].supply
    ensures AllSafe(kept) && Priced(kept, price) && forall t | t in kept :: t.Fresh()
    ensures forall t | t in liquidated :: !t.Safe()
    ensures multiset(kept) + multiset(liquidated) == multiset(Refresh(troves, price))
    ensures kept == Select(Refresh(troves, price), true) && liquidated == Select(Refresh(troves, price), false)
    ensures |kept| + |liquidated| == |troves|
    ensures debtLiquidated == Supply(liquidated) && Supply(kept) == Supply(troves) - debtLiquidated
  {
    var current := Refresh(troves, price);
    kept, liquidated := Select(current, true), Select(current, false);
    SelectSplits(current);
    SelectSupply(current);
    assert |multiset(kept) + multiset(liquidated)| == |multiset(current)|;
    forall t | t in current ensures t.crCurrent >= 1.1 <==> t.Safe() {
      FreshSafe(t);
    }
    debtLiquidated := Supply(liquidated);
    keep := SelectedRows(troves, price, true);
    lose := SelectedRows(troves, price, false);
  }

  /** The rows whose index is not dropped, in order. */
  function Drop(troves: seq<Trove>, drops: set<nat>): (r: seq<Trove>)
    requires forall i | i in drops :: i < |troves|
    ensures |r| == |troves| - |drops|
    ensures forall t | t in r :: t in troves
    ensures Supply(r) + Supply(Dropped(troves, drops)) == Supply(troves)
  {
    if troves == [] then
      assert drops == {};
      []
    else
      var last := |troves| - 1;
      var rest := Drop(troves[..last], drops - {last});
      SupplyAppend(rest, [troves[last]]); SupplyOne(troves[last]);
      SupplyAppend(Dropped(troves[..last], drops - {last}), [troves[last]]);
      if last in drops then rest else assert drops - {last} == drops; rest + [troves[last]]
  }

  function Dropped(troves: seq<Trove>, drops: set<nat>): seq<Trove> {
    if troves == [] then []
    else
      var last := |troves| - 1;
      var rest := Dropped(troves[..last], drops - {last});
      if last in drops then rest + [troves[last]] else rest
  }

  /** `rows` are the rows of `troves` at exactly the positions that are not dropped, in order. */
  ghost predicate RowsBut(troves: seq<Trove>, drops: set<nat>, at: seq<nat>, rows: seq<Trove>) {
    SameRows(troves, at, rows) && AllBut(|troves|, drops, at)
  }

  ghost predicate SameRows(troves: seq<Trove>, at: seq<nat>, rows: seq<Trove>) {
    |at| == |rows| && (forall i, j | 0 <= i < j < |at| :: at[i] < at[j])
    && forall j | 0 <= j < |at| :: at[j] < |troves| && rows[j] == troves[at[j]]
  }

  ghost predicate AllBut(n: nat, drops: set<nat>, at: seq<nat>) {
    (forall j | 0 <= j < |at| :: at[j] < n) && forall i: nat | i < n :: i in at <==> i !in drops
  }

  lemma {:induction false} DropRows(troves: seq<Trove>, drops: set<nat>) returns (at: seq<nat>)
    requires forall i | i in drops :: i < |troves|
    ensures RowsBut(troves, drops, at, Drop(troves, drops))
    decreases |troves|
  {
    hide Supply;
    if troves == [] {
      at := [];
    } else {
      var last: nat := |troves| - 1;
      var before := DropRows(troves[..last], drops - {last});
      at := if last in drops then before else before + [last];
      RowsButMore(troves, drops, before, at, Drop(troves[..last], drops - {last}));
    }
  }

  lemma RowsButMore(troves: seq<Trove>, drops: set<nat>, at: seq<nat>, later: seq<nat>, rows: seq<Trove>)
    requires troves != [] && RowsBut(troves[..|troves| - 1], drops - {|troves| - 1}, at, rows)
    requires later == if |troves| - 1 in drops then at else at + [|troves| - 1]
    ensures RowsBut(troves, drops, later, if |troves| - 1 in drops then rows else rows + [troves[|troves| - 1]])
  {
    hide SameRows, AllBut;
    SameRowsMore(troves, at, rows);
    AllButMore(|troves| - 1, drops, at, later);
  }

  lemma SameRowsMore(troves: seq<Trove>, at: seq<nat>, rows: seq<Trove>)
    requires troves != [] && SameRows(troves[..|troves| - 1], at, rows)
    ensures SameRows(troves, at, rows) && SameRows(troves, at + [|troves| - 1], rows + [troves[|troves| - 1]])
  {
    var last: nat := |troves| - 1;
    assert forall j | 0 <= j < |at| :: troves[..last][at[j]] == troves[at[j]];
  }

  lemma AllButMore(last: nat, drops: set<nat>, at: seq<nat>, later: seq<nat>)
    requires AllBut(last, drops - {last}, at) && later == if last in drops then at else at + [last]
    ensures AllBut(last + 1, drops, later)
  {
    forall i: nat | i < last + 1 ensures i in later <==> i !in drops {
      if i < last { assert i in at <==> i !in drops - {last}; }
    }
  }

  /** Drops a sample of rows. Sampling more rows than there are is an error. */
  method CloseTroves(troves: seq<Trove>, number: nat, sample: set<nat>) returns (ok: bool, kept: seq<Trove>, nClose: int, ghost at: seq<nat>)
    requires number <= |troves| ==> |sample| == number && forall i | i in sample :: i < |troves|
    ensures ok <==> number <= |troves|
    ensures ok ==> kept == Drop(troves, sample) && |kept| == |troves| - number && RowsBut(troves, sample, at, kept)
    ensures ok ==> nClose == if |troves| < 2 * number then -999 else number
  {
    if number > |troves| {
      return false, troves, 0, [];
    }
    kept := Drop(troves, sample);
    at := DropRows(troves, sample);
    nClose := number;
    if |kept| < number {
      nClose := -999;
    }
    ok := true;
  }
  // ---- Adjustment ----

  /** How far the recorded ratio is from the owner's target, in units of the owner's inattention. */
  function Check(t: Trove): real
    requires t.Valid()
  {
    ScalePositive(t);
    (t.crCurrent - t.crInitial) / (t.crInitial * t.inattention)
  }

  lemma ScalePositive(t: Trove)
    requires t.Valid()
    ensures t.crInitial * t.inattention > 0.0
  {
  }

  lemma QuotientBounds(a: real, b: real)
    requires b > 0.0
    ensures a / b < -1.0 <==> a < -b
    ensures a / b > 2.0 <==> a > 2.0 * b
  {
    var q := a / b;
    assert q * b == a;
  }

  lemma BandEdges(target: real, inattention: real, width: real)
    requires width == target * inattention
    ensures target * (1.0 - inattention) == target - width
    ensures target * (1.0 + 2.0 * inattention) == target + 2.0 * width
  {
  }

  lemma CheckBounds(t: Trove)
    requires t.Valid()
    ensures Check(t) < -1.0 <==> t.crCurrent < t.crInitial * (1.0 - t.inattention)
    ensures Check(t) > 2.0 <==> t.crCurrent > t.crInitial * (1.0 + 2.0 * t.inattention)
    ensures -1.0 <= Check(t) <= 2.0 <==> Attended(t)
  {
    ScalePositive(t);
    var width := t.crInitial * t.inattention;
    BandEdges(t.crInitial, t.inattention, width);
    var distance := t.crCurrent - t.crInitial;
    QuotientBounds(distance, width);
    assert Check(t) == distance / width;
  }

  lemma AttendedIs(t: Trove)
    requires t.Valid()
    ensures -1.0 <= Check(t) <= 2.0 <==> Attended(t)
  {
    CheckBounds(t);
  }

  /** The recorded ratio is within the owner's attention band. */
  predicate Attended(t: Trove) {
    t.crInitial * (1.0 - t.inattention) <= t.crCurrent <= t.crInitial * (1.0 + 2.0 * t.inattention)
  }

  /** A trove outside its band goes back to its target, through its debt or its collateral. */
  function Adjust(t: Trove, byDebt: bool): Trove
    requires t.Valid()
  {
    if -1.0 <= Check(t) <= 2.0 then t
    else if byDebt then t.(supply := t.Collateral() / t.crInitial)
    else t.(etherQuantity := t.crInitial * t.supply / t.etherPrice)
  }

  lemma ToTarget(c: real, target: real, s: real)
    requires target >= 1.1 && c > 0.0 && s > 0.0 && s == c / target
    ensures c / s == target && c >= 1.1 * s
  {
    assert s * target == c;
  }

  lemma TargetInBand(target: real, inattention: real)
    requires target >= 1.1 && inattention > 0.0
    ensures target * (1.0 - inattention) <= target <= target * (1.0 + 2.0 * inattention)
  {
    assert target * inattention > 0.0;
    assert target * (1.0 - inattention) == target - target * inattention;
    assert target * (1.0 + 2.0 * inattention) == target + 2.0 * (target * inattention);
  }

  lemma AdjustByDebt(t: Trove, r: Trove)
    requires t.Safe() && r == t.(supply := t.Collateral() / t.crInitial)
    ensures r.Safe() && r.Collateral() / r.supply == r.crInitial
  {
    ToTarget(t.Collateral(), t.crInitial, r.supply);
  }

  lemma AdjustByCollateral(t: Trove, r: Trove)
    requires t.Safe() && r == t.(etherQuantity := t.crInitial * t.supply / t.etherPrice)
    ensures r.Safe() && r.Collateral() / r.supply == r.crInitial
  {
    var value := t.crInitial * t.supply;
    assert value >= 1.1 * t.supply;
    assert r.etherQuantity * t.etherPrice == value;
    assert r.Collateral() == value;
    assert value / t.supply == t.crInitial;
  }

  /** With an up-to-date ratio on entry, a trove leaves within its band, and safe if it came safe. */
  lemma AdjustInBand(t: Trove, byDebt: bool)
    requires t.Safe() && t.Fresh()
    ensures Adjust(t, byDebt).Safe() && Adjust(t, byDebt).InBand()
    ensures Adjust(t, byDebt) != t ==> Adjust(t, byDebt).Collateral() / Adjust(t, byDebt).supply == t.crInitial
  {
    hide Check;
    CheckBounds(t);
    TargetInBand(t.crInitial, t.inattention);
    var r := Adjust(t, byDebt);
    if byDebt && !(-1.0 <= Check(t) <= 2.0) {
      AdjustByDebt(t, r);
    } else if !(-1.0 <= Check(t) <= 2.0) {
      AdjustByCollateral(t, r);
    }
  }

  /** Below the band the debt shrinks, above it the debt grows. */
  lemma AdjustDirection(t: Trove)
    requires t.Safe() && t.Fresh()
    ensures Check(t) < -1.0 ==> Adjust(t, true).supply < t.supply
    ensures Check(t) > 2.0 ==> Adjust(t, true).supply > t.supply
  {
    hide Check;
    CheckBounds(t);
    var s := t.Collateral() / t.crInitial;
    BetweenRatios(t.Collateral(), t.supply, t.crCurrent, t.crInitial, t.inattention, s);
  }

  lemma BetweenRatios(c: real, supply: real, ratio: real, target: real, inattention: real, s: real)
    requires c > 0.0 && supply > 0.0 && target >= 1.1 && inattention > 0.0
    requires ratio == c / supply && s == c / target
    ensures ratio < target * (1.0 - inattention) ==> s < supply
    ensures ratio > target * (1.0 + 2.0 * inattention) ==> s > supply
  {
    assert ratio * supply == c && s * target == c;
    TargetInBand(target, inattention);
    if ratio < target {
      assert ratio * supply < target * supply;
    }
    if ratio > target {
      assert ratio * supply > target * supply;
    }
  }

  /** A row outside its band is moved to its target, by its debt or by its ether alone; a row within it stays as it is. */
  ghost predicate Readjusted(t: Trove, r: Trove, byDebt: bool) {
    r.etherPrice == t.etherPrice && r.crInitial == t.crInitial && r.inattention == t.inattention && r.crCurrent == t.crCurrent
    && if Attended(t) then r == t
       else r.Collateral() == t.crInitial * r.supply && (if byDebt then r.etherQuantity == t.etherQuantity else r.supply == t.supply)
  }

  lemma AdjustMoves(t: Trove, byDebt: bool)
    requires t.Valid()
    ensures Readjusted(t, Adjust(t, byDebt), byDebt)
  {
    AttendedIs(t);
    hide Check, Attended;
    if byDebt {
      TargetReached(t.Collateral(), t.crInitial, t.Collateral() / t.crInitial);
    } else {
      TargetReached(t.crInitial * t.supply, t.etherPrice, t.crInitial * t.supply / t.etherPrice);
    }
  }

  lemma TargetReached(c: real, target: real, s: real)
    requires target > 0.0 && s == c / target
    ensures c == target * s
  {
  }

  function Max(a: real, b: real): real { if a > b then a else b }

  /** The issuance fee on an amount of new supply. */
  function Fee(rate: real, amount: real): real { rate * amount }

  /** Supply added and supply cut by going from one table to another, row by row. */
  function Increase(before: seq<Trove>, after: seq<Trove>): (d: real)
    requires |before| == |after|
    ensures d >= 0.0
  {
    if before == [] then 0.0
    else
      var last := |before| - 1;
      Increase(before[..last], after[..last]) + Max(after[last].supply - before[last].supply, 0.0)
  }

  lemma {:induction false} NetIncrease(before: seq<Trove>, after: seq<Trove>)
    requires |before| == |after|
    ensures Supply(after) - Supply(before) == Increase(before, after) - Increase(after, before)
  {
    if before != [] {
      var last := |before| - 1;
      NetIncrease(before[..last], after[..last]);
    }
  }

  lemma IncreaseSnoc(before: seq<Trove>, after: seq<Trove>, b: Trove, a: Trove)
    requires |before| == |after|
    ensures Increase(before + [b], after + [a]) == Increase(before, after) + Max(a.supply - b.supply, 0.0)
  {
    assert (before + [b])[..|before|] == before && (after + [a])[..|before|] == after;
  }

  /**
   `p(i)` is the draw of row `i`: below `ratio` its owner adjusts collateral, otherwise debt.
   The fee is charged on debt increases only.
   */
  method AdjustTroves(troves: seq<Trove>, ratio: real, p: nat -> real, rate: real)
    returns (adjusted: seq<Trove>, issuance: real)
    requires AllSafe(troves) && forall t | t in troves :: t.Fresh()
    ensures |adjusted| == |troves|
    ensures forall i | 0 <= i < |troves| :: troves[i] in troves && adjusted[i] == Adjust(troves[i], p(i) >= ratio)
    ensures forall i | 0 <= i < |troves| :: Readjusted(troves[i], adjusted[i], p(i) >= ratio)
    ensures AllSafe(adjusted) && forall t | t in adjusted :: t.InBand()
    ensures issuance == Fee(rate, Increase(troves, adjusted))
  {
    hide Increase, Check, Adjust, Readjusted, Trove.InBand, Trove.Fresh, Fee;
    adjusted, issuance := [], 0.0;
    IncreaseNone();
    FeeNone(rate);
    for i := 0 to |troves|
      invariant |adjusted| == i
      invariant forall k | 0 <= k < i :: troves[k] in troves && adjusted[k] == Adjust(troves[k], p(k) >= ratio)
      invariant forall k | 0 <= k < i :: Readjusted(troves[k], adjusted[k], p(k) >= ratio)
      invariant AllSafe(adjusted) && forall t | t in adjusted :: t.InBand()
      invariant issuance == Fee(rate, Increase(troves[..i], adjusted))
    {
      var t := troves[i];
      assert t in troves;
      var working := t;
      var check := Check(t);
      if p(i) >= ratio {
        if check < -1.0 {
          working := working.(supply := t.Collateral() / t.crInitial);
        }
        if check > 2.0 {
          var supplyNew := t.Collateral() / t.crInitial;
          issuance := issuance + Fee(rate, supplyNew - t.supply);
          working := working.(supply := supplyNew);
        }
      }
      if p(i) < ratio && (check < -1.0 || check > 2.0) {
        working := working.(etherQuantity := t.crInitial * t.supply / t.etherPrice);
      }
      AdjustOne(t, p(i) >= ratio, working);
      AdjustMoves(t, p(i) >= ratio);
      assert troves[..i + 1] == troves[..i] + [t];
      IncreaseSnoc(troves[..i], adjusted, t, working);
      FeeStep(rate, Increase(troves[..i], adjusted), Max(working.supply - t.supply, 0.0));
      adjusted := adjusted + [working];
    }
    assert troves[..|troves|] == troves;
  }

  lemma IncreaseNone()
    ensures Increase([], []) == 0.0
  {
  }

  lemma FeeStep(rate: real, a: real, b: real)
    ensures Fee(rate, a + b) == Fee(rate, a) + Fee(rate, b)
    ensures b == 0.0 ==> Fee(rate, a + b) == Fee(rate, a)
  {
  }

  lemma FeeNone(rate: real)
    ensures Fee(rate, 0.0) == 0.0
  {
  }

  /** The loop body above computes `Adjust` and charges the increase. */
  lemma AdjustOne(t: Trove, byDebt: bool, r: Trove)
    requires t.Safe() && t.Fresh()
    requires r == if -1.0 <= Check(t) <= 2.0 then t
                  else if byDebt then t.(supply := t.Collateral() / t.crInitial)
                  else t.(etherQuantity := t.crInitial * t.supply / t.etherPrice)
    ensures r == Adjust(t, byDebt) && r.Safe() && r.InBand()
    ensures Max(r.supply - t.supply, 0.0) == if byDebt && Check(t) > 2.0 then r.supply - t.supply else 0.0
  {
    AdjustInBand(t, byDebt);
    AdjustDirection(t);
  }

  // ---- Opening ----

  /** Draws of a new trove: a chi-square variate and two gamma variates. */
  datatype Draw = Draw(chi: real, quantity: real, inattention: real)

  predicate DrawsInRange(draws: seq<Draw>) {
    forall d | d in draws :: d.chi >= 0.0 && d.quantity > 0.0 && d.inattention > 0.0
  }

  lemma Opened(price: real, quantity: real, cr: real, s: real)
    requires price > 0.0 && quantity > 0.0 && cr >= 1.1 && s == price * quantity / cr
    ensures s > 0.0 && price * quantity >= 1.1 * s && price * quantity / s == cr
  {
    ToTarget(price * quantity, cr, s);
  }

  predicate FromDraw(t: Trove, d: Draw) {
    t.Valid() && t.Fresh() && t.crCurrent == t.crInitial == 1.1 + 0.1 * d.chi
    && t.etherQuantity == d.quantity && t.inattention == d.inattention
  }

  method OpenTroves(troves: seq<Trove>, price: real, draws: seq<Draw>, rate: real)
    returns (grown: seq<Trove>, issuance: real)
    requires price > 0.0 && AllSafe(troves) && Priced(troves, price) && DrawsInRange(draws)
    ensures |grown| == |troves| + |draws| && grown[..|troves|] == troves
    ensures AllSafe(grown) && Priced(grown, price)
    ensures forall i | 0 <= i < |draws| :: FromDraw(grown[|troves| + i], draws[i])
    ensures issuance == rate * (Supply(grown) - Supply(troves)) && Supply(grown) >= Supply(troves)
  {
    hide Supply;
    grown, issuance := troves, 0.0;
    for i := 0 to |draws|
      invariant |grown| == |troves| + i && grown[..|troves|] == troves
      invariant AllSafe(grown) && Priced(grown, price)
      invariant forall k | 0 <= k < i :: FromDraw(grown[|troves| + k], draws[k])
      invariant issuance == rate * (Supply(grown) - Supply(troves)) && Supply(grown) >= Supply(troves)
    {
      var d := draws[i];
      var cr := 1.1 + 0.1 * d.chi;
      var s := price * d.quantity / cr;
      Opened(price, d.quantity, cr, s);
      var row := Trove(price, d.quantity, cr, s, d.inattention, cr);
      SupplyAppend(grown, [row]);
      SupplyOne(row);
      assert FromDraw(row, d);
      FeeStep(rate, Supply(grown) - Supply(troves), s);
      issuance := issuance + rate * s;
      grown := grown + [row];
    }
  }
  // ---- Redemption ----

  predicate ByRatio(troves: seq<Trove>) {
    forall i, j | 0 <= i < j < |troves| :: troves[i].crCurrent <= troves[j].crCurrent
  }

  /** A row after a partial redemption. */
  function Redeemed(t: Trove, residual: real): Trove
    requires t.etherPrice > 0.0 && t.supply > residual
  {
    var r := t.(supply := t.supply - residual, etherQuantity := t.etherQuantity - residual / t.etherPrice);
    r.(crCurrent := r.Collateral() / r.supply)
  }

  lemma RedeemedSafe(t: Trove, residual: real)
    requires t.Safe() && 0.0 <= residual < t.supply
    ensures Redeemed(t, residual).Safe() && Redeemed(t, residual).Fresh()
    ensures var r := Redeemed(t, residual);
            r.Collateral() == t.Collateral() - residual && r.supply == t.supply - residual
            && r.etherPrice == t.etherPrice && r.crInitial == t.crInitial && r.inattention == t.inattention
  {
    RedeemedCollateral(t, residual);
    var q := t.etherQuantity - residual / t.etherPrice;
    PositiveFactor(t.etherPrice, q, t.Collateral() - residual);
    assert Redeemed(t, residual).etherQuantity == q;
  }

  /** The longest prefix that a redemption of `pool` closes, and what is left for the next row. */
  ghost predicate LongestPrefix(troves: seq<Trove>, pool: real, n: nat) {
    n < |troves| && forall k | 0 <= k <= |troves| :: Supply(troves[..k]) <= pool <==> k <= n
  }

  lemma {:induction false} PrefixGrows(troves: seq<Trove>, i: nat, j: nat)
    requires i < j <= |troves| && forall t | t in troves :: t.supply > 0.0
    ensures Supply(troves[..i]) < Supply(troves[..j])
  {
    assert troves[..j] == troves[..i] + troves[i..j];
    SupplyAppend(troves[..i], troves[i..j]);
    SupplyPositive(troves[i..j]);
  }

  /** After closing `n` rows and redeeming the residual from the next one. */
  ghost predicate RowsLeft(sorted: seq<Trove>, pool: real, n: nat, rest: seq<Trove>) {
    n < |sorted| && sorted[n].etherPrice > 0.0
    && var residual := pool - Supply(sorted[..n]);
       0.0 <= residual < sorted[n].supply && rest == [Redeemed(sorted[n], residual)] + sorted[n + 1..]
  }

  /** Shuts the riskiest troves down until `pool` is used up. An empty table is an error. */
  method RedeemSorted(sorted: seq<Trove>, pool: real) returns (ok: bool, rest: seq<Trove>, n: nat)
    requires AllSafe(sorted) && pool >= 0.0
    ensures ok <==> pool < Supply(sorted)
    ensures ok ==> n < |sorted| && LongestPrefix(sorted, pool, n) && RowsLeft(sorted, pool, n, rest)
    ensures ok ==> AllSafe(rest) && Supply(rest) == Supply(sorted) - pool
  {
    hide Supply;
    SupplyNone();
    rest, n := sorted, 0;
    if rest == [] {
      return false, rest, n;
    }
    var quantity := rest[0].supply;
    var redempted := quantity;
    SupplyOne(sorted[0]);
    assert sorted[..0] == [] && sorted[..1] == [sorted[0]];
    while redempted <= pool
      invariant n < |sorted| && rest == sorted[n..] && quantity == sorted[n].supply
      invariant redempted == Supply(sorted[..n + 1]) == Supply(sorted[..n]) + quantity
      invariant Supply(sorted[..n]) <= pool
      decreases |rest|
    {
      rest := rest[1..];
      if rest == [] {
        assert sorted[..n + 1] == sorted;
        return false, rest, n;
      }
      n := n + 1;
      quantity := rest[0].supply;
      SupplyAppend(sorted[..n], [sorted[n]]);
      SupplyOne(sorted[n]);
      assert sorted[..n + 1] == sorted[..n] + [sorted[n]];
      redempted := redempted + quantity;
    }
    redempted := redempted - quantity;
    var residual := pool - redempted;
    assert rest[0] == sorted[n] && sorted[n] in sorted;
    RedeemedSafe(rest[0], residual);
    assert rest == sorted[n..] && rest[1..] == sorted[n + 1..];
    RestSupply(sorted, n, Redeemed(rest[0], residual));
    PrefixIsLongest(sorted, pool, n);
    rest := [Redeemed(rest[0], residual)] + rest[1..];
    ok := true;
  }

  lemma RestSupply(sorted: seq<Trove>, n: nat, t: Trove)
    requires n < |sorted|
    ensures Supply([t] + sorted[n + 1..]) == Supply(sorted) - Supply(sorted[..n]) - sorted[n].supply + t.supply
  {
    hide Supply;
    assert sorted == sorted[..n] + [sorted[n]] + sorted[n + 1..];
    SupplyAppend(sorted[..n] + [sorted[n]], sorted[n + 1..]);
    SupplyAppend(sorted[..n], [sorted[n]]);
    SupplyAppend([t], sorted[n + 1..]);
    SupplyOne(t);
    SupplyOne(sorted[n]);
  }

  lemma PrefixIsLongest(sorted: seq<Trove>, pool: real, n: nat)
    requires n < |sorted| && (forall t | t in sorted :: t.supply > 0.0)
    requires Supply(sorted[..n]) <= pool < Supply(sorted[..n + 1])
    ensures LongestPrefix(sorted, pool, n) && pool < Supply(sorted)
  {
    forall k | 0 <= k <= |sorted| ensures Supply(sorted[..k]) <= pool <==> k <= n {
      if k < n { PrefixGrows(sorted, k, n); }
      if n + 1 < k { PrefixGrows(sorted, n + 1, k); }
    }
    assert sorted[..|sorted|] == sorted;
  }

  lemma RedeemedCollateral(t: Trove, residual: real)
    requires t.Safe() && 0.0 <= residual < t.supply
    ensures var q := t.etherQuantity - residual / t.etherPrice;
            t.etherPrice * q == t.Collateral() - residual
    ensures t.Collateral() - residual >= 1.1 * (t.supply - residual)
  {
    var part := residual / t.etherPrice;
    assert part * t.etherPrice == residual;
  }

  lemma PermutedSafe(a: seq<Trove>, b: seq<Trove>)
    requires multiset(a) == multiset(b) && AllSafe(a)
    ensures AllSafe(b) && Supply(a) == Supply(b) && |a| == |b|
    ensures forall p | Priced(a, p) :: Priced(b, p)
  {
    forall t | t in b ensures t in a {
      assert t in multiset(b);
    }
    SupplyPermuted(a, b);
    assert |multiset(a)| == |multiset(b)|;
  }

  // ---- The LUSD price ----

  lemma {:induction false} PowerPositive(x: real, n: nat)
    requires x > 0.0
    ensures Power(x, n) > 0.0
  {
    if n > 0 {
      PowerPositive(x, n - 1);
    }
  }

  lemma {:induction false} PowerMonotone(x: real, y: real, n: nat)
    requires 0.0 < x < y
    ensures n > 0 ==> Power(x, n) < Power(y, n)
  {
    if n > 1 {
      PowerMonotone(x, y, n - 1);
      PowerPositive(x, n - 1);
      ProductsGrow(x, y, Power(x, n - 1), Power(y, n - 1));
    } else if n == 1 {
      assert Power(x, 1) == x * Power(x, 0) && Power(y, 1) == y * Power(y, 0);
    }
  }

  lemma ProductsGrow(x: real, y: real, a: real, b: real)
    requires 0.0 < x < y && 0.0 < a < b
    ensures x * a < y * b
  {
    assert x * a < y * a;
    assert y * a < y * b;
  }

  /** `p` is `previous` times `liquidity / demand` to the power of minus one twentieth. */
  predicate IsPrice(p: real, previous: real, demand: real, liquidity: real) {
    p > 0.0 && previous > 0.0 && Power(p / previous, 20) * liquidity == demand
  }

  /** The liquidity at which the pricing formula gives `p`. */
  function LiquidityFor(p: real, previous: real, demand: real): (l: real)
    requires p > 0.0 && previous > 0.0 && demand > 0.0
    ensures l > 0.0 && IsPrice(p, previous, demand, l)
  {
    hide Power;
    assert p / previous > 0.0;
    PowerPositive(p / previous, 20);
    Divided(demand, Power(p / previous, 20));
    demand / Power(p / previous, 20)
  }

  lemma Divided(a: real, b: real)
    requires a > 0.0 && b > 0.0
    ensures a / b > 0.0 && b * (a / b) == a
  {
  }

  /** A higher price goes with less liquidity. */
  lemma PriceFallsWithLiquidity(p: real, q: real, previous: real, demand: real, lp: real, lq: real)
    requires IsPrice(p, previous, demand, lp) && IsPrice(q, previous, demand, lq)
    requires p < q && demand > 0.0
    ensures lq < lp
  {
    hide Power;
    var x, y := p / previous, q / previous;
    QuotientGrows(p, q, previous);
    PowerMonotone(x, y, 20);
    PowerPositive(x, 20);
    LargerFactor(Power(x, 20), lp, Power(y, 20), lq, demand);
  }

  lemma QuotientGrows(p: real, q: real, d: real)
    requires 0.0 < p < q && d > 0.0
    ensures 0.0 < p / d < q / d
  {
  }

  lemma LargerFactor(a: real, l: real, b: real, m: real, d: real)
    requires 0.0 < a < b && a * l == d && b * m == d && d > 0.0
    ensures m < l
  {
    PositiveFactor(a, l, d);
    assert a * l < b * l;
    SmallerFactor(b, m, l);
  }

  lemma SmallerFactor(b: real, m: real, l: real)
    requires b > 0.0 && b * m < b * l
    ensures m < l
  {
  }

  datatype Price = NotANumber | Price(value: real)

  datatype Outcome =
    | IndexError
    | Stabilized(price: Price, liquidity: real, troves: seq<Trove>, issuance: real,
                 redemptionFee: real, nRedempt: nat, redemptionPool: real, nOpen: int)

  /** What the price stabilizer starts from; `root` is the value of the fractional power. */
  datatype Market = Market(
    etherPrice: real, previous: real, demand: real, stability: real, root: real,
    redemptionRatio: real, rateIssuance: real, rateRedemption: real)
  {
    ghost predicate Valid(supply: real) {
      etherPrice > 0.0 && previous > 0.0 && demand > 0.0 && redemptionRatio >= 0.0
      && rateIssuance >= 0.0 && rateRedemption >= 0.0
      && (supply > stability ==> root > 0.0 && Power(root, 20) * (supply - stability) == demand)
    }

    function Ceiling(): real { 1.1 + rateIssuance }

    function Floor(): real { 1.0 - rateRedemption }

    /** The price before any arbitrage is above the ceiling; without liquidity it is infinite. */
    predicate AboveCeiling(supply: real) {
      supply == stability || (supply > stability && previous * root > Ceiling())
    }

    predicate BelowFloor(supply: real) {
      supply > stability && previous * root < Floor()
    }
  }

  lemma RootIsPrice(m: Market, supply: real)
    requires m.Valid(supply) && supply > m.stability
    ensures IsPrice(m.previous * m.root, m.previous, m.demand, supply - m.stability)
  {
    hide Power;
    Unscale(m.previous, m.root);
  }

  lemma Unscale(a: real, b: real)
    requires a > 0.0 && b > 0.0
    ensures a * b > 0.0 && a * b / a == b
  {
  }

  /** The supply at the ceiling exceeds the current one exactly when the price is above the ceiling. */
  lemma CeilingMints(m: Market, supply: real)
    requires m.Valid(supply) && m.AboveCeiling(supply)
    ensures m.stability + LiquidityFor(m.Ceiling(), m.previous, m.demand) > supply
  {
    if supply > m.stability {
      RootIsPrice(m, supply);
      PriceFallsWithLiquidity(m.Ceiling(), m.previous * m.root, m.previous, m.demand,
                              LiquidityFor(m.Ceiling(), m.previous, m.demand), supply - m.stability);
    }
  }

  lemma FloorBurns(m: Market, supply: real)
    requires m.Valid(supply) && m.BelowFloor(supply)
    ensures m.Floor() > 0.0
    ensures m.stability + LiquidityFor(m.Floor(), m.previous, m.demand) < supply
  {
    RootIsPrice(m, supply);
    PriceFallsWithLiquidity(m.previous * m.root, m.Floor(), m.previous, m.demand,
                            supply - m.stability, LiquidityFor(m.Floor(), m.previous, m.demand));
  }

  /** The part of the liquidity pool that may be redeemed at once. */
  function MostRedeemable(m: Market, liquidity: real): real { m.redemptionRatio * liquidity }

  /** What has to be redeemed for the price to reach the floor. */
  function FloorGap(m: Market, supply: real): real
    requires m.Floor() > 0.0 && m.previous > 0.0 && m.demand > 0.0
  {
    supply - (m.stability + LiquidityFor(m.Floor(), m.previous, m.demand))
  }

  /** What the arbitrageurs redeem below the floor. */
  function RedemptionPool(m: Market, supply: real): real
    requires m.Floor() > 0.0 && m.previous > 0.0 && m.demand > 0.0
  {
    if FloorGap(m, supply) < MostRedeemable(m, supply - m.stability) then FloorGap(m, supply) else MostRedeemable(m, supply - m.stability)
  }

  /** The gap is positive, and closing it brings the formula to the floor. */
  lemma PoolBounds(m: Market, supply: real)
    requires m.Valid(supply) && m.BelowFloor(supply)
    ensures m.Floor() > 0.0 && FloorGap(m, supply) > 0.0
    ensures IsPrice(m.Floor(), m.previous, m.demand, supply - m.stability - FloorGap(m, supply))
    ensures RedemptionPool(m, supply) >= 0.0
    ensures m.redemptionRatio > 0.0 ==> RedemptionPool(m, supply) > 0.0
    ensures m.stability >= 0.0 && m.redemptionRatio < 1.0 ==> RedemptionPool(m, supply) < supply
  {
    FloorBurns(m, supply);
    MostBounds(m, supply - m.stability);
    hide IsPrice, Power, MostRedeemable;
  }

  lemma MostBounds(m: Market, liquidity: real)
    requires m.redemptionRatio >= 0.0 && liquidity > 0.0
    ensures MostRedeemable(m, liquidity) >= 0.0
    ensures m.redemptionRatio > 0.0 ==> MostRedeemable(m, liquidity) > 0.0
    ensures m.redemptionRatio < 1.0 ==> MostRedeemable(m, liquidity) < liquidity
  {
    Fraction(m.redemptionRatio, liquidity, m.redemptionRatio * liquidity);
  }

  lemma Fraction(r: real, l: real, x: real)
    requires r >= 0.0 && l > 0.0 && x == r * l
    ensures x >= 0.0 && (r > 0.0 ==> x > 0.0) && (r < 1.0 ==> x < l)
  {
    if r < 1.0 {
      LessTimes(r, 1.0, l);
    }
  }

  /** A new row brings the price down to the ceiling, exactly. */
  ghost predicate CeilingReached(m: Market, troves: seq<Trove>, nOpen: int, o: Outcome) {
    o.Stabilized? && o.price == Price(m.Ceiling()) && o.nOpen == nOpen + 1
    && o.redemptionPool == o.redemptionFee == 0.0 && o.nRedempt == 0
    && |o.troves| == |troves| + 1 && o.troves[..|troves|] == troves && Supply(o.troves) > Supply(troves)
    && m.previous > 0.0 && m.demand > 0.0 && IsPrice(m.Ceiling(), m.previous, m.demand, o.liquidity)
    && o.liquidity == Supply(o.troves) - m.stability
    && o.issuance == Fee(m.rateIssuance, Supply(o.troves) - Supply(troves))
  }

  /**
   The riskiest rows are redeemed. Either the formula then gives the floor exactly, or the
   redemption is cut short and the price stays where the formula put it before.
   */
  ghost predicate FloorDefended(m: Market, troves: seq<Trove>, sorted: seq<Trove>, nOpen: int, o: Outcome)
    requires m.Floor() > 0.0 && m.previous > 0.0 && m.demand > 0.0
  {
    var supply := Supply(troves);
    var pool := RedemptionPool(m, supply);
    (o.IndexError? <==> pool >= supply)
    && (o.IndexError? ==> m.stability < 0.0 || m.redemptionRatio >= 1.0)
    && (o.Stabilized? ==>
          o.redemptionPool == pool && o.redemptionFee == m.rateRedemption * pool && o.issuance == 0.0 && o.nOpen == nOpen
          && LongestPrefix(sorted, pool, o.nRedempt) && Supply(o.troves) == supply - pool
          && RowsLeft(sorted, pool, o.nRedempt, o.troves)
          && pool >= 0.0 && (m.redemptionRatio > 0.0 ==> pool > 0.0)
          && o.liquidity == supply - m.stability
          && o.price.Price?
          && (pool < MostRedeemable(m, supply - m.stability) ==>
                o.price.value == m.Floor() && IsPrice(m.Floor(), m.previous, m.demand, o.liquidity - pool))
          && (pool == MostRedeemable(m, supply - m.stability) ==>
                o.price.value == m.previous * m.root && IsPrice(o.price.value, m.previous, m.demand, o.liquidity)))
  }

  method MintAtCeiling(troves: seq<Trove>, m: Market, nOpen: int) returns (o: Outcome)
    requires AllSafe(troves) && Priced(troves, m.etherPrice) && m.Valid(Supply(troves)) && m.AboveCeiling(Supply(troves))
    ensures CeilingReached(m, troves, nOpen, o) && AllSafe(o.troves) && Priced(o.troves, m.etherPrice)
  {
    hide Supply, Power;
    CeilingMints(m, Supply(troves));
    var supplyWanted := m.stability + LiquidityFor(m.Ceiling(), m.previous, m.demand);
    var minted := supplyWanted - Supply(troves);
    var row := Trove(m.etherPrice, minted * 1.1 / m.etherPrice, 1.1, minted, 0.1, 1.1);
    MintedSafe(m.etherPrice, minted);
    SupplyAppend(troves, [row]);
    SupplyOne(row);
    o := Stabilized(Price(m.Ceiling()), supplyWanted - m.stability, troves + [row],
                    m.rateIssuance * minted, 0.0, 0, 0.0, nOpen + 1);
  }

  method RedeemAtFloor(troves: seq<Trove>, sorted: seq<Trove>, m: Market, nOpen: int) returns (o: Outcome)
    requires AllSafe(troves) && Priced(troves, m.etherPrice) && m.Valid(Supply(troves)) && m.BelowFloor(Supply(troves))
    requires multiset(sorted) == multiset(troves) && ByRatio(sorted)
    ensures m.Floor() > 0.0 && FloorDefended(m, troves, sorted, nOpen, o)
    ensures o.Stabilized? ==> AllSafe(o.troves) && Priced(o.troves, m.etherPrice) && |o.troves| == |troves| - o.nRedempt
  {
    hide Supply, Power, LongestPrefix, IsPrice, FloorGap, MostRedeemable, AllSafe, Priced;
    var supply := Supply(troves);
    var liquidity := supply - m.stability;
    PoolBounds(m, supply);
    RootIsPrice(m, supply);
    PermutedSafe(troves, sorted);
    var difference := FloorGap(m, supply);
    var price, pool := m.previous * m.root, MostRedeemable(m, liquidity);
    if difference < pool {
      price, pool := m.Floor(), difference;
    }
    var ok, rest, n := RedeemSorted(sorted, pool);
    if !ok {
      return IndexError;
    }
    RedeemedPriced(sorted, rest, n, m.etherPrice);
    o := Stabilized(Price(price), liquidity, rest, 0.0, m.rateRedemption * pool, n, pool, nOpen);
  }

  /** The three outcomes of arbitrage: at the ceiling, at the floor, or none. */
  ghost predicate ArbitragedTo(m: Market, troves: seq<Trove>, sorted: seq<Trove>, nOpen: int, o: Outcome) {
    if m.AboveCeiling(Supply(troves)) then CeilingReached(m, troves, nOpen, o)
    else if m.BelowFloor(Supply(troves)) then
      m.Floor() > 0.0 && m.previous > 0.0 && m.demand > 0.0 && FloorDefended(m, troves, sorted, nOpen, o)
    else
      o.Stabilized? && o.troves == troves && o.redemptionPool == 0.0 && o.nOpen == nOpen && o.nRedempt == 0
      && o.liquidity == Supply(troves) - m.stability
      && (Supply(troves) > m.stability ==> o.price == Price(m.previous * m.root))
  }

  /** `sorted` is the table ordered by recorded ratio; rows of equal ratio come in any order. */
  method PriceStabilizer(troves: seq<Trove>, sorted: seq<Trove>, m: Market, nOpen: int) returns (o: Outcome)
    requires AllSafe(troves) && Priced(troves, m.etherPrice) && m.Valid(Supply(troves))
    requires multiset(sorted) == multiset(troves) && ByRatio(sorted)
    ensures o.Stabilized? ==> AllSafe(o.troves) && Priced(o.troves, m.etherPrice)
                              && o.liquidity == Supply(o.troves) - m.stability + o.redemptionPool
                              && o.redemptionPool >= 0.0 && Supply(o.troves) + o.redemptionPool >= Supply(troves)
                              && o.issuance == Fee(m.rateIssuance, Supply(o.troves) + o.redemptionPool - Supply(troves))
    ensures o.IndexError? ==> m.stability < 0.0 || m.redemptionRatio >= 1.0
    ensures Supply(troves) < m.stability <==> o.Stabilized? && o.price.NotANumber?
    ensures o.Stabilized? && o.price.NotANumber? ==> o.liquidity < 0.0
    ensures ArbitragedTo(m, troves, sorted, nOpen, o)
    ensures o.Stabilized? && o.price.Price? ==> 0.0 < o.price.value <= m.Ceiling() && o.liquidity > 0.0
    ensures o.Stabilized? ==> |o.troves| == |troves| + (o.nOpen - nOpen) - o.nRedempt
                              && o.redemptionFee == m.rateRedemption * o.redemptionPool
  {
    hide Supply, Power, LongestPrefix, IsPrice, AllSafe, Priced, ByRatio;
    var supply := Supply(troves);
    var liquidity := supply - m.stability;
    if liquidity < 0.0 {
      return Stabilized(NotANumber, liquidity, troves, 0.0, 0.0, 0, 0.0, nOpen);
    }
    if m.AboveCeiling(supply) {
      o := MintAtCeiling(troves, m, nOpen);
      CeilingLiquid(m, o.liquidity);
      return;
    }
    RootIsPrice(m, supply);
    Unscale(m.previous, m.root);
    if m.BelowFloor(supply) {
      o := RedeemAtFloor(troves, sorted, m, nOpen);
      return;
    }
    return Stabilized(Price(m.previous * m.root), liquidity, troves, 0.0, 0.0, 0, 0.0, nOpen);
  }

  lemma CeilingLiquid(m: Market, liquidity: real)
    requires m.previous > 0.0 && m.demand > 0.0 && IsPrice(m.Ceiling(), m.previous, m.demand, liquidity)
    ensures liquidity > 0.0
  {
    hide Power;
    QuotientGrows(m.Ceiling() / 2.0, m.Ceiling(), m.previous);
    PowerPositive(m.Ceiling() / m.previous, 20);
    PositiveFactor(Power(m.Ceiling() / m.previous, 20), liquidity, m.demand);
  }

  lemma MintedSafe(price: real, minted: real)
    requires price > 0.0 && minted > 0.0
    ensures Trove(price, minted * 1.1 / price, 1.1, minted, 0.1, 1.1).Safe()
  {
    var q := minted * 1.1 / price;
    assert q * price == minted * 1.1;
    PositiveFactor(price, q, minted * 1.1);
  }

  lemma RedeemedPriced(sorted: seq<Trove>, rest: seq<Trove>, n: nat, price: real)
    requires n < |sorted| == |rest| + n && Priced(sorted, price)
    requires rest[0].etherPrice == sorted[n].etherPrice && rest[1..] == sorted[n + 1..]
    ensures Priced(rest, price)
  {
    assert sorted[n] in sorted;
    forall t | t in rest ensures t.etherPrice == price {
      var k :| 0 <= k < |rest| && rest[k] == t;
      if k > 0 {
        assert rest[k] == rest[1..][k - 1] == sorted[n + 1..][k - 1] == sorted[n + k];
        assert sorted[n + k] in sorted;
      }
    }
  }
  // ---- The simulation loop ----

  /** The draws of one period. `drift` is the drift of the liquidity pool with its shock. */
  datatype Shocks = Shocks(
    etherPrice: real, closing: nat, ratio: real, p: nat -> real, opens: seq<Draw>,
    stability: real, drift: real, redemptionRatio: real, rateIssuance: real, rateRedemption: real)
  {
    predicate InRange() {
      etherPrice > 0.0 && drift > 0.0 && redemptionRatio >= 0.0 && rateIssuance >= 0.0 && rateRedemption >= 0.0
      && DrawsInRange(opens)
    }
  }

  /** One row of the time series. */
  datatype Record = Record(
    price: real, liquidity: real, stability: real, supply: real, redemptionPool: real,
    issuanceFee: real, redemptionFee: real, nOpen: int, nClose: int, nLiquidate: nat, nRedempt: nat, nTroves: nat)
  {
    predicate Valid() {
      price > 0.0 && liquidity > 0.0 && redemptionPool >= 0.0
      && liquidity == supply - stability + redemptionPool
    }
  }

  /** Where the supply went in a period. */
  datatype Flows = Flows(liquidated: real, closed: real, cut: real, added: real)
  {
    predicate NonNegative() {
      liquidated >= 0.0 && closed >= 0.0 && cut >= 0.0 && added >= 0.0
    }
  }

  /** What the borrowers of a period leave behind: survivors in their bands, then the new rows. */
  ghost predicate Rearranged(troves: seq<Trove>, s: Shocks, sample: (nat, nat) -> set<nat>, rows: seq<Trove>)
    requires s.InRange() && (forall t | t in troves :: t.Valid()) && IsSample(sample)
  {
    var kept := Select(Refresh(troves, s.etherPrice), true);
    s.closing <= |kept|
    && var left := Drop(kept, sample(|kept|, s.closing));
       |rows| == |left| + |s.opens|
       && (forall i | 0 <= i < |left| :: left[i].Valid() && rows[i] == Adjust(left[i], s.p(i) >= s.ratio))
       && forall i | 0 <= i < |s.opens| :: FromDraw(rows[|left| + i], s.opens[i])
  }

  /** The market after the borrowers: the fractional power is taken where the liquidity pool is positive. */
  function MarketOf(s: Shocks, last: Record, power: real -> real, supply: real): Market
    requires s.InRange() && last.Valid()
  {
    var demand := Demand(s, last);
    Market(s.etherPrice, last.price, demand, s.stability, RootAt(power, supply - s.stability, demand),
           s.redemptionRatio, s.rateIssuance, s.rateRedemption)
  }

  /** The previous liquidity pool with its drift. */
  function Demand(s: Shocks, last: Record): (demand: real)
    requires s.InRange() && last.Valid()
    ensures demand > 0.0
  {
    PositiveProduct(last.liquidity, s.drift);
    last.liquidity * s.drift
  }

  function RootAt(power: real -> real, liquidity: real, demand: real): real
    requires demand > 0.0
  {
    if liquidity > 0.0 then power(liquidity / demand) else 0.0
  }

  lemma MarketValid(s: Shocks, last: Record, power: real -> real, supply: real)
    requires s.InRange() && last.Valid() && IsRoot(power)
    ensures MarketOf(s, last, power, supply).Valid(supply)
  {
    hide Power, IsRoot, Demand, RootAt;
    RootOf(power, Demand(s, last), supply - s.stability);
  }

  lemma MarketFields(s: Shocks, last: Record, power: real -> real, supply: real)
    requires s.InRange() && last.Valid()
    ensures var m := MarketOf(s, last, power, supply);
            m.etherPrice == s.etherPrice && m.stability == s.stability && m.redemptionRatio == s.redemptionRatio
            && m.previous == last.price && m.demand == last.liquidity * s.drift
            && m.rateIssuance == s.rateIssuance && m.rateRedemption == s.rateRedemption
  {
  }

  datatype Status = Running | Stopped | Failed

  /** What happened inside a period: the flows of supply, the table as the borrowers left it, and the arbitrage on it. */
  datatype Turn = Turn(flows: Flows, before: seq<Trove>, outcome: Outcome)

  /** More rows are to close than the liquidations leave. */
  ghost predicate TooManyToClose(troves: seq<Trove>, s: Shocks)
    requires s.InRange() && forall t | t in troves :: t.Valid()
  {
    |Select(Refresh(troves, s.etherPrice), false)| + s.closing > |troves|
  }

  /** The borrowers rearrange the table and arbitrage follows on what they leave. */
  ghost predicate Arranged(power: real -> real, sort: seq<Trove> -> seq<Trove>, sample: (nat, nat) -> set<nat>,
                           troves: seq<Trove>, last: Record, s: Shocks, t: Turn)
    requires s.InRange() && last.Valid() && IsSample(sample) && forall t | t in troves :: t.Valid()
  {
    Rearranged(troves, s, sample, t.before)
    && ArbitragedTo(MarketOf(s, last, power, Supply(t.before)), t.before, sort(t.before), |s.opens|, t.outcome)
  }

  /** A period that goes through: the record and the table it ends with, from the outcome and the supply ledger. */
  ghost predicate TurnsTo(troves: seq<Trove>, s: Shocks, t: Turn, later: seq<Trove>, r: Record)
    requires s.InRange() && forall t | t in troves :: t.Valid()
  {
    t.outcome.Stabilized? && t.outcome.price.Price? && later == t.outcome.troves
    && r.price == t.outcome.price.value && r.liquidity == t.outcome.liquidity && r.redemptionPool == t.outcome.redemptionPool
    && r.nOpen == t.outcome.nOpen && r.nRedempt == t.outcome.nRedempt
    && Priced(later, s.etherPrice) && t.flows.NonNegative() && r.supply == Supply(later) && r.stability == s.stability
    && Supply(later) == Supply(troves) - t.flows.liquidated - t.flows.closed - t.flows.cut + t.flows.added - r.redemptionPool
    && t.flows.liquidated == Supply(Select(Refresh(troves, s.etherPrice), false))
    && r.issuanceFee == r.price * Fee(s.rateIssuance, t.flows.added)
    && r.redemptionFee == s.rateRedemption * r.redemptionPool && r.price <= 1.1 + s.rateIssuance
    && r.nTroves == |later| == |troves| - r.nLiquidate - s.closing + r.nOpen - r.nRedempt
  }

  /**
   One period. It fails exactly when more troves are to close than there are, or when a redemption would empty the
   table, and then changes nothing; it stops exactly when the liquidity pool turns negative; else it adds a record.
   */
  ghost predicate PeriodIs(power: real -> real, sort: seq<Trove> -> seq<Trove>, sample: (nat, nat) -> set<nat>,
                           troves: seq<Trove>, data: seq<Record>, s: Shocks, status: Status, t: Turn,
                           later: seq<Trove>, records: seq<Record>)
    requires IsSample(sample)
  {
    AllValid(troves) && data != [] && data[|data| - 1].Valid() && s.InRange()
    && (status == Failed <==> TooManyToClose(troves, s) || t.outcome.IndexError?)
    && (status == Stopped <==> !TooManyToClose(troves, s) && t.outcome.Stabilized? && t.outcome.price.NotANumber?)
    && (!TooManyToClose(troves, s) ==> Arranged(power, sort, sample, troves, data[|data| - 1], s, t))
    && (status == Failed ==> later == troves)
    && if status == Running then
         |records| == |data| + 1 && data <= records && TurnsTo(troves, s, t, later, records[|data|])
       else records == data
  }

  lemma TooManyIs(troves: seq<Trove>, s: Shocks, nLiquidate: int)
    requires s.InRange() && AllValid(troves) && nLiquidate == |Select(Refresh(troves, s.etherPrice), false)|
    ensures TooManyToClose(troves, s) <==> nLiquidate + s.closing > |troves|
  {
  }

  lemma ArrangedIs(power: real -> real, sort: seq<Trove> -> seq<Trove>, sample: (nat, nat) -> set<nat>,
                   troves: seq<Trove>, last: Record, s: Shocks, t: Turn)
    requires s.InRange() && last.Valid() && IsSample(sample) && AllValid(troves) && Rearranged(troves, s, sample, t.before)
    requires ArbitragedTo(MarketOf(s, last, power, Supply(t.before)), t.before, sort(t.before), |s.opens|, t.outcome)
    ensures Arranged(power, sort, sample, troves, last, s, t)
  {
  }

  lemma PeriodBreaks(power: real -> real, sort: seq<Trove> -> seq<Trove>, sample: (nat, nat) -> set<nat>,
                     troves: seq<Trove>, data: seq<Record>, s: Shocks, status: Status, t: Turn, later: seq<Trove>)
    requires IsSample(sample) && AllValid(troves) && data != [] && data[|data| - 1].Valid() && s.InRange()
    requires if TooManyToClose(troves, s) then status == Failed
             else Arranged(power, sort, sample, troves, data[|data| - 1], s, t)
                  && if t.outcome.IndexError? then status == Failed else status == Stopped && t.outcome.price.NotANumber?
    requires status == Failed ==> later == troves
    ensures PeriodIs(power, sort, sample, troves, data, s, status, t, later, data)
  {
    hide TooManyToClose, Arranged;
  }

  lemma PeriodGoes(power: real -> real, sort: seq<Trove> -> seq<Trove>, sample: (nat, nat) -> set<nat>,
                   troves: seq<Trove>, data: seq<Record>, s: Shocks, t: Turn, later: seq<Trove>, r: Record)
    requires IsSample(sample) && AllValid(troves) && data != [] && data[|data| - 1].Valid() && s.InRange()
    requires !TooManyToClose(troves, s) && Arranged(power, sort, sample, troves, data[|data| - 1], s, t)
    requires TurnsTo(troves, s, t, later, r)
    ensures PeriodIs(power, sort, sample, troves, data, s, Running, t, later, data + [r])
  {
    TurnsHow(troves, s, t, later, r);
    hide TooManyToClose, Arranged, TurnsTo;
  }

  lemma TurnsHow(troves: seq<Trove>, s: Shocks, t: Turn, later: seq<Trove>, r: Record)
    requires s.InRange() && AllValid(troves) && TurnsTo(troves, s, t, later, r)
    ensures t.outcome.Stabilized? && t.outcome.price.Price?
  {
  }

  lemma Turned(troves: seq<Trove>, s: Shocks, t: Turn, later: seq<Trove>, r: Record)
    requires s.InRange() && AllValid(troves) && t.outcome.Stabilized? && t.outcome.price.Price? && later == t.outcome.troves
    requires r.price == t.outcome.price.value && r.liquidity == t.outcome.liquidity && r.redemptionPool == t.outcome.redemptionPool
    requires r.nOpen == t.outcome.nOpen && r.nRedempt == t.outcome.nRedempt
    requires Priced(later, s.etherPrice) && t.flows.NonNegative() && r.supply == Supply(later) && r.stability == s.stability
    requires Supply(later) == Supply(troves) - t.flows.liquidated - t.flows.closed - t.flows.cut + t.flows.added - r.redemptionPool
    requires t.flows.liquidated == Supply(Select(Refresh(troves, s.etherPrice), false))
    requires r.issuanceFee == r.price * Fee(s.rateIssuance, t.flows.added)
    requires r.redemptionFee == s.rateRedemption * r.redemptionPool && r.price <= 1.1 + s.rateIssuance
    requires r.nTroves == |later| == |troves| - r.nLiquidate - s.closing + r.nOpen - r.nRedempt
    ensures TurnsTo(troves, s, t, later, r)
  {
    hide Supply, Select, Refresh, Priced, Fee, AllValid;
  }

  ghost predicate AllValid(troves: seq<Trove>) {
    forall t | t in troves :: t.Valid()
  }

  /**
   The periods of a run, one table and one record after the other: `tables[i]` is the table before period `i`,
   and `data[first + i]` the record it adds.
   */
  ghost predicate Chained(power: real -> real, sort: seq<Trove> -> seq<Trove>, sample: (nat, nat) -> set<nat>,
                          data: seq<Record>, first: nat, shocks: seq<Shocks>, turns: seq<Turn>, tables: seq<seq<Trove>>)
    requires IsSample(sample) && 0 < first
  {
    first + |turns| == |data| && |turns| + 1 == |tables| && |turns| <= |shocks|
    && (forall i | 0 <= i < |tables| :: AllValid(tables[i])) && (forall i | 0 <= i < |data| :: data[i].Valid())
    && forall i | 0 <= i < |turns| :: LinkedPeriod(power, sort, sample, tables[i], data[first + i - 1], shocks[i], turns[i], tables[i + 1], data[first + i])
  }

  ghost predicate LinkedPeriod(power: real -> real, sort: seq<Trove> -> seq<Trove>, sample: (nat, nat) -> set<nat>,
                               troves: seq<Trove>, last: Record, s: Shocks, t: Turn, later: seq<Trove>, r: Record)
    requires IsSample(sample) && AllValid(troves) && last.Valid()
  {
    s.InRange() && Arranged(power, sort, sample, troves, last, s, t) && TurnsTo(troves, s, t, later, r)
  }

  lemma ChainStarts(power: real -> real, sort: seq<Trove> -> seq<Trove>, sample: (nat, nat) -> set<nat>,
                    data: seq<Record>, shocks: seq<Shocks>, troves: seq<Trove>)
    requires IsSample(sample) && data != [] && AllValid(troves) && forall r | r in data :: r.Valid()
    ensures Chained(power, sort, sample, data, |data|, shocks, [], [troves])
  {
    assert forall i | 0 <= i < |data| :: data[i] in data;
  }

  lemma ChainGrows(power: real -> real, sort: seq<Trove> -> seq<Trove>, sample: (nat, nat) -> set<nat>,
                   data: seq<Record>, first: nat, shocks: seq<Shocks>, turns: seq<Turn>, tables: seq<seq<Trove>>,
                   t: Turn, later: seq<Trove>, r: Record)
    requires IsSample(sample) && 0 < first && Chained(power, sort, sample, data, first, shocks, turns, tables)
    requires |turns| < |shocks| && AllValid(later) && r.Valid()
    requires LinkedPeriod(power, sort, sample, tables[|turns|], data[|data| - 1], shocks[|turns|], t, later, r)
    ensures Chained(power, sort, sample, data + [r], first, shocks, turns + [t], tables + [later])
  {
    hide LinkedPeriod, AllValid, IsSample;
    var turns', tables', data' := turns + [t], tables + [later], data + [r];
    forall i | 0 <= i < |turns'|
      ensures LinkedPeriod(power, sort, sample, tables'[i], data'[first + i - 1], shocks[i], turns'[i], tables'[i + 1], data'[first + i])
    {
      if i < |turns| {
        assert tables'[i] == tables[i] && tables'[i + 1] == tables[i + 1] && data'[first + i - 1] == data[first + i - 1]
               && data'[first + i] == data[first + i];
      }
    }
  }

  ghost predicate IsRoot(power: real -> real) {
    forall x | x > 0.0 :: power(x) > 0.0 && Power(power(x), 20) * x == 1.0
  }

  ghost predicate IsSort(sort: seq<Trove> -> seq<Trove>) {
    forall s :: multiset(sort(s)) == multiset(s) && ByRatio(sort(s))
  }

  ghost predicate IsSample(sample: (nat, nat) -> set<nat>) {
    forall n: nat, k: nat | k <= n :: |sample(n, k)| == k && forall i | i in sample(n, k) :: i < n
  }

  lemma RootOf(power: real -> real, demand: real, liquidity: real)
    requires IsRoot(power) && demand > 0.0
    ensures var root := RootAt(power, liquidity, demand);
            liquidity > 0.0 ==> root > 0.0 && Power(root, 20) * liquidity == demand
  {
    hide Power;
    if liquidity > 0.0 {
      var x := liquidity / demand;
      Divided(liquidity, demand);
      assert power(x) > 0.0;
      ScaleUp(Power(power(x), 20), liquidity, demand, x);
    }
  }

  lemma ScaleUp(a: real, l: real, d: real, q: real)
    requires d > 0.0 && q == l / d && a * q == 1.0
    ensures a * l == d
  {
    assert q * d == l;
    assert a * l == (a * q) * d;
  }

  lemma FlowsNonNegative(liquidated: seq<Trove>, dropped: seq<Trove>)
    requires forall t | t in liquidated :: t.supply > 0.0
    requires forall t | t in dropped :: t.supply > 0.0
    ensures Supply(liquidated) >= 0.0 && Supply(dropped) >= 0.0
  {
    SupplyPositive(liquidated);
    SupplyPositive(dropped);
  }

  lemma DroppedIn(troves: seq<Trove>, drops: set<nat>)
    ensures forall t | t in Dropped(troves, drops) :: t in troves
  {
  }

  /** The table of troves and the time series, with the library functions the simulation calls. */
  class Simulation {
    const power: real -> real
    const sort: seq<Trove> -> seq<Trove>
    const sample: (nat, nat) -> set<nat>
    var troves: seq<Trove>
    var data: seq<Record>

    ghost predicate Valid()
      reads this
    {
      IsRoot(power) && IsSort(sort) && IsSample(sample)
      && AllSafe(troves) && data != [] && forall r | r in data :: r.Valid()
    }

    /** The first rows; half of their supply is liquid, half is in the stability pool. */
    constructor (power: real -> real, sort: seq<Trove> -> seq<Trove>, sample: (nat, nat) -> set<nat>,
                 etherPrice: real, draws: seq<Draw>, rate: real)
      requires IsRoot(power) && IsSort(sort) && IsSample(sample)
      requires etherPrice > 0.0 && draws != [] && DrawsInRange(draws) && rate >= 0.0
      ensures Valid() && |troves| == |draws| && |data| == 1
      ensures data[0].price == 1.0 && data[0].supply == Supply(troves)
      ensures data[0].liquidity == data[0].stability == 0.5 * Supply(troves)
      ensures data[0].issuanceFee == rate * Supply(troves)
    {
      hide Supply;
      var rows, issuance := OpenTroves([], etherPrice, draws, rate);
      SupplyNone();
      SupplyPositive(rows);
      var supply := Supply(rows);
      this.power, this.sort, this.sample := power, sort, sample;
      troves := rows;
      data := [Record(1.0, 0.5 * supply, 0.5 * supply, supply, 0.0, issuance * 1.0, 0.0, |draws|, 0, 0, 0, |draws|)];
    }

    /** Liquidation to opening: everything of a period that comes before the price is known. */
    method Borrowers(s: Shocks)
      returns (ok: bool, rows: seq<Trove>, nClose: int, nLiquidate: nat, issuance: real, flows: Flows)
      requires Valid() && s.InRange()
      ensures ok ==> AllSafe(rows) && Priced(rows, s.etherPrice) && flows.NonNegative()
                     && Supply(rows) == Supply(troves) - flows.liquidated - flows.closed - flows.cut + flows.added
                     && issuance == Fee(s.rateIssuance, flows.added)
                     && flows.liquidated == Supply(Select(Refresh(troves, s.etherPrice), false))
                     && |rows| == |troves| - nLiquidate - s.closing + |s.opens|
      ensures ok ==> Rearranged(troves, s, sample, rows)
      ensures nLiquidate == |Select(Refresh(troves, s.etherPrice), false)|
      ensures ok <==> nLiquidate + s.closing <= |troves|
    {
      hide Supply, Increase, Drop, Dropped, IsRoot, IsSort, Select, Refresh, Adjust, FromDraw, RowsAt, RowsBut, Readjusted;
      var kept, debtLiquidated, liquidated, keep, lose := LiquidateTroves(troves, s.etherPrice);
      var closed, left, n, at := CloseTroves(kept, s.closing, sample(|kept|, s.closing));
      if !closed {
        return false, [], 0, |liquidated|, 0.0, Flows(0.0, 0.0, 0.0, 0.0);
      }
      var adjusted, issuanceAdjust := AdjustTroves(left, s.ratio, s.p, s.rateIssuance);
      AdjustedPriced(left, s.ratio, s.p, adjusted, s.etherPrice);
      var grown, issuanceOpen := OpenTroves(adjusted, s.etherPrice, s.opens, s.rateIssuance);
      var drops := sample(|kept|, s.closing);
      flows := Flows(debtLiquidated, Supply(Dropped(kept, drops)), Increase(adjusted, left),
                     Increase(left, adjusted) + (Supply(grown) - Supply(adjusted)));
      DropSupply(kept, drops);
      NetIncrease(left, adjusted);
      FromTable(troves, s.etherPrice, kept, liquidated);
      DroppedIn(kept, drops);
      FlowsNonNegative(liquidated, Dropped(kept, drops));
      FeeStep(s.rateIssuance, Increase(left, adjusted), Supply(grown) - Supply(adjusted));
      return true, grown, n, |liquidated|, issuanceAdjust + issuanceOpen, flows;
    }

    /**
     One period. It fails exactly when more troves are to close than there are, or when a redemption would
     empty the table; it stops the simulation exactly when the liquidity pool turns negative.
     */
    method Period(s: Shocks) returns (status: Status, ghost t: Turn)
      requires Valid() && s.InRange()
      modifies this
      ensures Valid()
      ensures IsSample(sample) && PeriodIs(power, sort, sample, old(troves), old(data), s, status, t, troves, data)
    {
      hide Supply, LongestPrefix, IsPrice, Power, IsRoot, IsSample, Select, Refresh, AllSafe, Priced, ByRatio, TooManyToClose,
           CeilingReached, FloorDefended, ArbitragedTo, Rearranged, MarketOf, Fee, Arranged, TurnsTo, PeriodIs, AllValid;
      Unfold();
      var ok, rows, nClose, nLiquidate, issuance, flows := Borrowers(s);
      t := Turn(flows, rows, IndexError);
      ghost var before, was := troves, data;
      TooManyIs(before, s, nLiquidate);
      if !ok {
        PeriodBreaks(power, sort, sample, before, was, s, Failed, t, before);
        return Failed, t;
      }
      var last := data[|data| - 1];
      var m := MarketOf(s, last, power, Supply(rows));
      MarketValid(s, last, power, Supply(rows));
      MarketFields(s, last, power, Supply(rows));
      var outcome := PriceStabilizer(rows, sort(rows), m, |s.opens|);
      t := Turn(flows, rows, outcome);
      ArrangedIs(power, sort, sample, before, last, s, t);
      if outcome.IndexError? {
        PeriodBreaks(power, sort, sample, before, was, s, Failed, t, before);
        return Failed, t;
      }
      troves := outcome.troves;
      if outcome.liquidity < 0.0 {
        PeriodBreaks(power, sort, sample, before, was, s, Stopped, t, troves);
        return Stopped, t;
      }
      var minted := Supply(outcome.troves) + outcome.redemptionPool - Supply(rows);
      FeeStep(s.rateIssuance, flows.added, minted);
      flows := flows.(added := flows.added + minted);
      t := Turn(flows, rows, outcome);
      var issuanceFee := outcome.price.value * (issuance + outcome.issuance);
      var r := Record(outcome.price.value, outcome.liquidity, s.stability, Supply(outcome.troves), outcome.redemptionPool, issuanceFee,
                      outcome.redemptionFee, outcome.nOpen, nClose, nLiquidate, outcome.nRedempt, |outcome.troves|);
      data := data + [r];
      Turned(before, s, t, troves, r);
      ArrangedIs(power, sort, sample, before, last, s, t);
      PeriodGoes(power, sort, sample, before, was, s, t, troves, r);
      status := if outcome.price.value < 0.0 then Stopped else Running;
    }

    /**
     The whole simulation, up to its first break or error: every period that goes through turns the table and the
     latest record into the next ones, and the one it ends at failed or stopped on the table it met.
     */
    method Run(shocks: seq<Shocks>) returns (status: Status, ghost turns: seq<Turn>, ghost tables: seq<seq<Trove>>)
      requires Valid() && forall s | s in shocks :: s.InRange()
      modifies this
      ensures Valid() && IsSample(sample)
      ensures RunIs(power, sort, sample, old(data), old(troves), shocks, status, turns, tables, data, troves)
      ensures status == Running <==> |turns| == |shocks|
    {
      Unfold();
      hide *;
      status, turns, tables := Running, [], [troves];
      RunStarts(power, sort, sample, data, troves, shocks);
      var i := 0;
      while i < |shocks| && status == Running
        invariant Valid() && IsSample(sample) && i <= |shocks|
        invariant RunIs(power, sort, sample, old(data), old(troves), shocks, status, turns, tables, data, troves)
        invariant if status == Running then |turns| == i else |turns| < i
      {
        ghost var data0, troves0 := old(data), old(troves);
        assert shocks[i] in shocks;
        status, turns, tables := Advance(shocks[i], i, shocks, data0, troves0, turns, tables);
        i := i + 1;
      }
    }

    /** One more period of a run that has gone through so far. */
    method Advance(s: Shocks, i: nat, ghost shocks: seq<Shocks>, ghost data0: seq<Record>, ghost troves0: seq<Trove>,
                   ghost turns: seq<Turn>, ghost tables: seq<seq<Trove>>)
      returns (status: Status, ghost turns': seq<Turn>, ghost tables': seq<seq<Trove>>)
      requires Valid() && IsSample(sample) && s.InRange() && i == |turns| < |shocks| && shocks[i] == s
      requires RunIs(power, sort, sample, data0, troves0, shocks, Running, turns, tables, data, troves)
      modifies this
      ensures Valid() && RunIs(power, sort, sample, data0, troves0, shocks, status, turns', tables', data, troves)
      ensures |turns'| == if status == Running then i + 1 else i
    {
      Unfold();
      hide *;
      ghost var was, before := data, troves;
      ghost var t;
      status, t := Period(s);
      Unfold();
      RunGoesOn(power, sort, sample, data0, troves0, shocks, turns, tables, was, before, t, status, data, troves);
      turns', tables' := turns, tables;
      if status == Running {
        turns', tables' := turns + [t], tables + [troves];
      }
    }

    lemma Unfold()
      requires Valid()
      ensures IsSample(sample) && data != [] && (forall r | r in data :: r.Valid()) && data[|data| - 1].Valid() && AllValid(troves)
    {
      assert data[|data| - 1] in data;
    }
  }

  /** The period that ends a run: it fails or stops on the table it meets. */
  ghost predicate EndsAt(power: real -> real, sort: seq<Trove> -> seq<Trove>, sample: (nat, nat) -> set<nat>,
                         troves: seq<Trove>, last: Record, s: Shocks, t: Turn, status: Status)
  {
    IsSample(sample) && AllValid(troves) && last.Valid() && s.InRange()
    && if TooManyToClose(troves, s) then status == Failed
       else Arranged(power, sort, sample, troves, last, s, t)
            && if t.outcome.IndexError? then status == Failed else t.outcome.price.NotANumber? && status == Stopped
  }

  ghost predicate Ends(power: real -> real, sort: seq<Trove> -> seq<Trove>, sample: (nat, nat) -> set<nat>,
                       troves: seq<Trove>, last: Record, s: Shocks, status: Status)
  {
    exists t :: EndsAt(power, sort, sample, troves, last, s, t, status)
  }

  /** A run from the records `data0` and the table `troves0`, up to `data` and `troves`. */
  ghost predicate RunIs(power: real -> real, sort: seq<Trove> -> seq<Trove>, sample: (nat, nat) -> set<nat>,
                        data0: seq<Record>, troves0: seq<Trove>, shocks: seq<Shocks>, status: Status,
                        turns: seq<Turn>, tables: seq<seq<Trove>>, data: seq<Record>, troves: seq<Trove>)
    requires IsSample(sample)
  {
    data0 != [] && data0 <= data && Chained(power, sort, sample, data, |data0|, shocks, turns, tables)
    && tables[0] == troves0 && (status != Stopped ==> troves == tables[|turns|])
    && (status != Running ==>
          |turns| < |shocks| && Ends(power, sort, sample, tables[|turns|], data[|data| - 1], shocks[|turns|], status))
  }

  lemma RunStarts(power: real -> real, sort: seq<Trove> -> seq<Trove>, sample: (nat, nat) -> set<nat>,
                  data: seq<Record>, troves: seq<Trove>, shocks: seq<Shocks>)
    requires IsSample(sample) && data != [] && AllValid(troves) && forall r | r in data :: r.Valid()
    ensures RunIs(power, sort, sample, data, troves, shocks, Running, [], [troves], data, troves)
  {
    hide AllValid;
    ChainStarts(power, sort, sample, data, shocks, troves);
  }

  lemma RunGoesOn(power: real -> real, sort: seq<Trove> -> seq<Trove>, sample: (nat, nat) -> set<nat>,
                  data0: seq<Record>, troves0: seq<Trove>, shocks: seq<Shocks>, turns: seq<Turn>, tables: seq<seq<Trove>>,
                  was: seq<Record>, before: seq<Trove>, t: Turn, status: Status, data: seq<Record>, troves: seq<Trove>)
    requires IsSample(sample) && AllValid(troves) && data != [] && data[|data| - 1].Valid() && |turns| < |shocks|
    requires RunIs(power, sort, sample, data0, troves0, shocks, Running, turns, tables, was, before)
    requires PeriodIs(power, sort, sample, before, was, shocks[|turns|], status, t, troves, data)
    ensures if status == Running then
              RunIs(power, sort, sample, data0, troves0, shocks, status, turns + [t], tables + [troves], data, troves)
            else
              RunIs(power, sort, sample, data0, troves0, shocks, status, turns, tables, data, troves)
  {
    hide AllValid, IsSample, Arranged, TooManyToClose, TurnsTo, Ends;
    if status == Running {
      var r := data[|was|];
      PeriodLinks(power, sort, sample, before, was[|was| - 1], shocks[|turns|], t, troves, r);
      hide LinkedPeriod;
      ChainGrows(power, sort, sample, was, |data0|, shocks, turns, tables, t, troves, r);
      assert data == was + [r];
    } else {
      PeriodEnds(power, sort, sample, before, was[|was| - 1], shocks[|turns|], t, status);
    }
  }

  lemma PeriodLinks(power: real -> real, sort: seq<Trove> -> seq<Trove>, sample: (nat, nat) -> set<nat>,
                    troves: seq<Trove>, last: Record, s: Shocks, t: Turn, later: seq<Trove>, r: Record)
    requires IsSample(sample) && AllValid(troves) && last.Valid() && s.InRange()
    requires Arranged(power, sort, sample, troves, last, s, t) && TurnsTo(troves, s, t, later, r)
    ensures LinkedPeriod(power, sort, sample, troves, last, s, t, later, r)
  {
  }

  lemma PeriodEnds(power: real -> real, sort: seq<Trove> -> seq<Trove>, sample: (nat, nat) -> set<nat>,
                   troves: seq<Trove>, last: Record, s: Shocks, t: Turn, status: Status)
    requires IsSample(sample) && AllValid(troves) && last.Valid() && s.InRange() && status != Running
    requires !TooManyToClose(troves, s) ==> Arranged(power, sort, sample, troves, last, s, t)
    requires status == Failed <==> TooManyToClose(troves, s) || t.outcome.IndexError?
    requires status == Stopped <==> !TooManyToClose(troves, s) && t.outcome.Stabilized? && t.outcome.price.NotANumber?
    ensures Ends(power, sort, sample, troves, last, s, status)
  {
    assert EndsAt(power, sort, sample, troves, last, s, t, status);
  }

  /** A redemption that is not cut short reaches the floor; any other price is that of the formula on the whole pool. */
  ghost predicate PricedBy(price: real, liquidity: real, pool: real, previous: real, demand: real,
                           redemptionRatio: real, rateRedemption: real) {
    previous > 0.0 && pool <= Max(redemptionRatio * liquidity, 0.0)
    && if 0.0 < pool < redemptionRatio * liquidity then price == 1.0 - rateRedemption && Power(price / previous, 20) * (liquidity - pool) == demand
       else Power(price / previous, 20) * liquidity == demand
  }

  /** The outcome of the arbitrage is priced, and accounts for the liquidity pool. */
  ghost predicate OutcomePriced(m: Market, nOpen: int, o: Outcome) {
    o.Stabilized? && o.price.Price? && (o.nOpen == nOpen || (o.nOpen == nOpen + 1 && o.price.value == 1.1 + m.rateIssuance))
    && o.liquidity == Supply(o.troves) - m.stability + o.redemptionPool
    && PricedBy(o.price.value, o.liquidity, o.redemptionPool, m.previous, m.demand, m.redemptionRatio, m.rateRedemption)
  }

  lemma CeilingPriced(m: Market, troves: seq<Trove>, nOpen: int, o: Outcome)
    requires CeilingReached(m, troves, nOpen, o)
    ensures OutcomePriced(m, nOpen, o)
  {
    hide Power, Supply;
  }

  lemma FloorPriced(m: Market, troves: seq<Trove>, sorted: seq<Trove>, nOpen: int, o: Outcome)
    requires m.Floor() > 0.0 && m.previous > 0.0 && m.demand > 0.0 && FloorDefended(m, troves, sorted, nOpen, o) && o.Stabilized?
    ensures OutcomePriced(m, nOpen, o)
  {
    hide Power, Supply, LongestPrefix, RowsLeft, FloorGap;
  }

  lemma FormulaPriced(m: Market, troves: seq<Trove>, nOpen: int, o: Outcome)
    requires m.Valid(Supply(troves)) && o.Stabilized? && o.troves == troves && o.redemptionPool == 0.0 && o.nOpen == nOpen
    requires o.liquidity == Supply(troves) - m.stability > 0.0 && o.price == Price(m.previous * m.root)
    ensures OutcomePriced(m, nOpen, o)
  {
    RootIsPrice(m, Supply(troves));
    hide Power, Supply;
  }

  lemma AllPriced(m: Market, before: seq<Trove>, sorted: seq<Trove>, nOpen: int, o: Outcome)
    requires m.Valid(Supply(before)) && ArbitragedTo(m, before, sorted, nOpen, o) && o.Stabilized? && o.liquidity > 0.0
    ensures OutcomePriced(m, nOpen, o)
  {
    hide Power, CeilingReached, FloorDefended, OutcomePriced, Supply;
    if m.AboveCeiling(Supply(before)) {
      CeilingPriced(m, before, nOpen, o);
    } else if m.BelowFloor(Supply(before)) {
      FloorPriced(m, before, sorted, nOpen, o);
    } else {
      FormulaPriced(m, before, nOpen, o);
    }
  }

  /**
   The price of a period follows from the last price, the liquidity pool with its drift, and what the rows of the
   period leave in the pool: at the floor after a redemption that reaches it, and by the formula on the pool before
   any redemption otherwise. A row is issued only where that takes the price to the ceiling.
   */
  lemma PriceFollows(power: real -> real, sort: seq<Trove> -> seq<Trove>, sample: (nat, nat) -> set<nat>,
                     troves: seq<Trove>, last: Record, s: Shocks, t: Turn, later: seq<Trove>, r: Record) returns (demand: real)
    requires IsRoot(power) && IsSample(sample) && AllValid(troves) && last.Valid() && r.Valid()
    requires LinkedPeriod(power, sort, sample, troves, last, s, t, later, r)
    ensures r.liquidity == Supply(later) - s.stability + r.redemptionPool
    ensures demand == last.liquidity * s.drift
    ensures r.price <= 1.1 + s.rateIssuance
    ensures r.nOpen == |s.opens| || (r.nOpen == |s.opens| + 1 && r.price == 1.1 + s.rateIssuance)
    ensures PricedBy(r.price, r.liquidity, r.redemptionPool, last.price, demand, s.redemptionRatio, s.rateRedemption)
  {
    TurnIs(power, sort, sample, troves, last, s, t, later, r);
    hide *;
    var m := MarketOf(s, last, power, Supply(t.before));
    MarketValid(s, last, power, Supply(t.before));
    MarketFields(s, last, power, Supply(t.before));
    AllPriced(m, t.before, sort(t.before), |s.opens|, t.outcome);
    PricedMeans(m, |s.opens|, t.outcome);
    demand := m.demand;
  }

  lemma PricedMeans(m: Market, nOpen: int, o: Outcome)
    requires OutcomePriced(m, nOpen, o)
    ensures o.Stabilized? && o.price.Price? && o.liquidity == Supply(o.troves) - m.stability + o.redemptionPool
    ensures o.nOpen == nOpen || (o.nOpen == nOpen + 1 && o.price.value == 1.1 + m.rateIssuance)
    ensures PricedBy(o.price.value, o.liquidity, o.redemptionPool, m.previous, m.demand, m.redemptionRatio, m.rateRedemption)
  {
    hide PricedBy, Supply;
  }

  lemma TurnIs(power: real -> real, sort: seq<Trove> -> seq<Trove>, sample: (nat, nat) -> set<nat>,
               troves: seq<Trove>, last: Record, s: Shocks, t: Turn, later: seq<Trove>, r: Record)
    requires IsSample(sample) && AllValid(troves) && last.Valid() && LinkedPeriod(power, sort, sample, troves, last, s, t, later, r)
    ensures r.Valid() ==> r.liquidity > 0.0
    ensures s.InRange() && t.outcome.Stabilized? && t.outcome.price.Price? && t.outcome.liquidity == r.liquidity && later == t.outcome.troves
    ensures r.price == t.outcome.price.value && r.liquidity == t.outcome.liquidity && r.redemptionPool == t.outcome.redemptionPool
    ensures r.nOpen == t.outcome.nOpen && r.price <= 1.1 + s.rateIssuance
    ensures ArbitragedTo(MarketOf(s, last, power, Supply(t.before)), t.before, sort(t.before), |s.opens|, t.outcome)
  {
    hide MarketOf, ArbitragedTo, Supply, Rearranged, Fee;
  }

  lemma AdjustedPriced(troves: seq<Trove>, ratio: real, p: nat -> real, adjusted: seq<Trove>, price: real)
    requires AllSafe(troves) && Priced(troves, price) && |adjusted| == |troves|
    requires forall i | 0 <= i < |troves| :: troves[i] in troves && adjusted[i] == Adjust(troves[i], p(i) >= ratio)
    ensures Priced(adjusted, price)
  {
  }

  lemma DropSupply(troves: seq<Trove>, drops: set<nat>)
    requires forall i | i in drops :: i < |troves|
    ensures Supply(Drop(troves, drops)) == Supply(troves) - Supply(Dropped(troves, drops))
    ensures forall t | t in Drop(troves, drops) :: t in troves
  {
  }

  lemma FromTable(troves: seq<Trove>, price: real, kept: seq<Trove>, liquidated: seq<Trove>)
    requires price > 0.0 && forall t | t in troves :: t.Valid()
    requires multiset(kept) + multiset(liquidated) == multiset(Refresh(troves, price))
    ensures forall t | t in liquidated :: t.supply > 0.0
    ensures forall t | t in kept :: t.supply > 0.0
  {
    var all := Refresh(troves, price);
    forall t | t in liquidated || t in kept ensures t.supply > 0.0 {
      assert t in multiset(kept) + multiset(liquidated);
      assert t in all;
    }
  }
}
