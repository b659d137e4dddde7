/**
 Recomputing stakes with truncating division, round after round: a stake is removed, and a new
 entrant's stake is computed from the totals. Compared with the same rounds in exact arithmetic.
 */
module StakeError {
  import opened Arithmetic

  /** One round: the stake of the liquidated trove, and the collateral of the new entrant. */
  datatype Round = Round(removed: nat, entrant: nat)

  datatype Totals = Totals(stakes: int, coll: nat)

  function NewStake(entrant: nat, stakes: nat, coll: nat): nat
    requires coll > 0
  {
    entrant * stakes / coll
  }

  /** One round, truncating. */
  function Step(t: Totals, round: Round): (r: Totals)
    requires t.coll > 0
    ensures r.coll == t.coll + round.entrant
  {
    var stakes := t.stakes - round.removed;
    Totals(stakes + if stakes < 0 then 0 else NewStake(round.entrant, stakes, t.coll), t.coll + round.entrant)
  }

  /** The total stakes after one round in exact arithmetic. */
  ghost function ExactStep(x: real, coll: nat, round: Round): real
    requires coll > 0
  {
    WithEntrant(x - round.removed as real, round.entrant, coll)
  }

  ghost function WithEntrant(stakes: real, entrant: nat, coll: nat): real
    requires coll > 0
  {
    stakes + entrant as real * stakes / coll as real
  }

  function After(t: Totals, rounds: seq<Round>): (r: Totals)
    requires t.coll > 0
    ensures r.coll >= t.coll
  {
    if rounds == [] then t
    else Step(After(t, rounds[..|rounds| - 1]), rounds[|rounds| - 1])
  }

  ghost function Exact(t: Totals, rounds: seq<Round>): real
    requires t.coll > 0
  {
    if rounds == [] then t.stakes as real
    else
      var init := rounds[..|rounds| - 1];
      ExactStep(Exact(t, init), After(t, init).coll, rounds[|rounds| - 1])
  }

  /** Every removed stake is part of the total at its time. */
  predicate Possible(t: Totals, rounds: seq<Round>)
    requires t.coll > 0
  {
    t.stakes >= 0 && forall i | 0 <= i < |rounds| :: rounds[i].removed <= After(t, rounds[..i]).stakes
  }

  /** The error per unit of collateral. */
  ghost function Gap(x: real, t: Totals): real
    requires t.coll > 0
  {
    (x - t.stakes as real) / t.coll as real
  }

  ghost function Share(n: nat, c: nat): real
    requires c > 0
  {
    n as real / c as real
  }

  ghost function RelativeGap(t: Totals, rounds: seq<Round>): real
    requires t.coll > 0
  {
    Gap(Exact(t, rounds), After(t, rounds))
  }

  lemma FractionOf(r: real, c: real)
    requires c > 0.0 && 0.0 <= r < c
    ensures 0.0 <= r / c < 1.0
  {
    var q := r / c;
    Quotient(r, c);
    var rest := 1.0 - q;
    assert rest * c == c - r;
    Sign(q, c);
    Sign(rest, c);
  }

  lemma Sign(a: real, c: real)
    requires c > 0.0
    ensures a * c >= 0.0 ==> a >= 0.0
    ensures a * c > 0.0 ==> a > 0.0
  {
  }

  lemma Grown(h: real, c: real, e: real, f: real)
    requires c > 0.0 && e >= 0.0
    ensures (h * c + e * h + f) / (c + e) == h + f / (c + e)
  {
    var d := c + e;
    var q := f / d;
    Quotient(f, d);
    assert h * c + e * h + f == (h + q) * d;
  }

  lemma RealDivision(p: nat, c: nat, s: nat, r: nat)
    requires c > 0 && s == p / c && r == p - s * c
    ensures r < c && p as real / c as real == s as real + r as real / c as real
  {
    assert r == p % c;
    Quotient(r as real, c as real);
    assert p as real == (s as real + r as real / c as real) * c as real;
  }

  lemma SplitDifference(e: real, x: real, t: real, c: real)
    requires c > 0.0
    ensures e * x / c == e * t / c + e * ((x - t) / c)
  {
    var a, b, h := e * x / c, e * t / c, (x - t) / c;
    Quotient(e * x, c);
    Quotient(e * t, c);
    Quotient(x - t, c);
    assert e * (h * c) == e * x - e * t;
    assert (a - b - e * h) * c == 0.0;
  }

  /** Truncation drops a fraction of a unit, on top of the entrant's part of the earlier error. */
  lemma FractionLost(x: real, t: nat, c: nat, e: nat, s: nat) returns (f: real)
    requires c > 0 && s == NewStake(e, t, c)
    ensures 0.0 <= f < 1.0
    ensures WithEntrant(x, e, c) - (t + s) as real == (x - t as real) + e as real * ((x - t as real) / c as real) + f
  {
    var p := e * t;
    var r := p - s * c;
    RealDivision(p, c, s, r);
    RealProduct(e, t, p);
    f := r as real / c as real;
    FractionOf(r as real, c as real);
    SplitDifference(e as real, x, t as real, c as real);
  }

  lemma SpreadError(g: real, c: real, e: real, f: real, h: real, total: real, gap: real)
    requires c > 0.0 && e >= 0.0 && g >= 0.0 && 0.0 <= f < 1.0
    requires h == g / c && total == c + e && gap == g + e * h + f
    ensures gap >= 0.0 && h <= gap / total < h + 1.0 / total
  {
    Quotient(g, c);
    NonNegative(h, c, g, e);
    Grown(h, c, e, f);
    Shares(f, total);
  }

  /** One round adds the truncated fraction, spread over the new total. */
  lemma RoundGap(x: real, t: nat, c: nat, e: nat, s: nat)
    requires c > 0 && x >= t as real && s == NewStake(e, t, c)
    ensures var grown, total := WithEntrant(x, e, c), (c + e) as real;
            (t + s) as real <= grown
            && (x - t as real) / c as real <= (grown - (t + s) as real) / total < (x - t as real) / c as real + Share(1, c + e)
  {
    var f := FractionLost(x, t, c, e, s);
    var g := x - t as real;
    SpreadError(g, c as real, e as real, f, g / c as real, (c + e) as real, WithEntrant(x, e, c) - (t + s) as real);
  }

  lemma Shares(f: real, d: real)
    requires d > 0.0 && 0.0 <= f < 1.0
    ensures 0.0 <= f / d < 1.0 / d
  {
  }

  lemma NonNegative(h: real, c: real, g: real, e: real)
    requires c > 0.0 && h * c == g && g >= 0.0 && e >= 0.0
    ensures h >= 0.0 && e * h >= 0.0
  {
  }

  lemma StepGap(x: real, t: Totals, round: Round)
    requires t.coll > 0 && round.removed <= t.stakes && t.stakes as real <= x
    ensures var y, r := ExactStep(x, t.coll, round), Step(t, round);
            0 <= r.stakes && r.stakes as real <= y && Gap(x, t) <= Gap(y, r) < Gap(x, t) + Share(1, r.coll)
  {
    hide WithEntrant, Share, NewStake;
    var stakes := t.stakes - round.removed;
    RoundGap(x - round.removed as real, stakes, t.coll, round.entrant, NewStake(round.entrant, stakes, t.coll));
    var y, r := ExactStep(x, t.coll, round), Step(t, round);
    assert Gap(y, r) == (y - r.stakes as real) / r.coll as real;
    assert Gap(x, t) == (x - round.removed as real - stakes as real) / t.coll as real;
  }

  lemma PossiblePrefix(t: Totals, rounds: seq<Round>)
    requires t.coll > 0 && rounds != [] && Possible(t, rounds)
    ensures Possible(t, rounds[..|rounds| - 1])
    ensures rounds[|rounds| - 1].removed <= After(t, rounds[..|rounds| - 1]).stakes
  {
    hide After;
    var init := rounds[..|rounds| - 1];
    forall i | 0 <= i < |init| ensures init[i].removed <= After(t, init[..i]).stakes {
      assert init[..i] == rounds[..i];
    }
  }

  /** Truncation never overstates the stakes, and no round repairs the relative error or adds a unit's share to it. */
  lemma {:induction false} GapPerRound(t: Totals, rounds: seq<Round>)
    requires t.coll > 0 && Possible(t, rounds)
    ensures 0 <= After(t, rounds).stakes && After(t, rounds).stakes as real <= Exact(t, rounds)
    ensures rounds != [] ==> var init := rounds[..|rounds| - 1];
              RelativeGap(t, init) <= RelativeGap(t, rounds) < RelativeGap(t, init) + Share(1, After(t, rounds).coll)
  {
    hide Step, ExactStep, Gap, Share;
    if rounds != [] {
      var init := rounds[..|rounds| - 1];
      PossiblePrefix(t, rounds);
      GapPerRound(t, init);
      StepGap(Exact(t, init), After(t, init), rounds[|rounds| - 1]);
    }
  }

  lemma ShareStep(n: nat, c: nat, d: nat)
    requires 0 < c <= d
    ensures Share(n, c) + Share(1, d) <= Share(n + 1, c) && Share(0, c) == 0.0
  {
    assert (n + 1) as real / c as real == n as real / c as real + 1.0 / c as real;
  }

  lemma {:induction false} RelativeGapBounded(t: Totals, rounds: seq<Round>)
    requires t.coll > 0 && Possible(t, rounds)
    ensures if rounds == [] then RelativeGap(t, rounds) == 0.0
            else RelativeGap(t, rounds) < Share(|rounds|, t.coll)
  {
    hide Step, ExactStep, Share;
    if rounds != [] {
      hide Gap, RelativeGap, After, Exact, Possible;
      var init := rounds[..|rounds| - 1];
      PossiblePrefix(t, rounds);
      GapPerRound(t, rounds);
      RelativeGapBounded(t, init);
      ShareStep(|init|, t.coll, After(t, rounds).coll);
    }
  }

  /** `n` times the growth of the collateral from `c0` to `c`. */
  ghost function Allowance(n: nat, c: nat, c0: nat): real
    requires c0 > 0
  {
    n as real * c as real / c0 as real
  }

  lemma Unshare(g: real, c: real, n: real, c0: real)
    requires c > 0.0 && c0 > 0.0 && g / c < n / c0
    ensures g < n * c / c0
  {
    var h, k := g / c, n / c0;
    Quotient(g, c);
    Quotient(n, c0);
    assert h * c < k * c;
    assert n * c / c0 == k * c by {
      assert (k * c) * c0 == n * c;
    }
  }

  lemma GapAllowed(x: real, t: Totals, n: nat, c0: nat)
    requires t.coll > 0 && c0 > 0 && Gap(x, t) < Share(n, c0)
    ensures x - t.stakes as real < Allowance(n, t.coll, c0)
  {
    Unshare(x - t.stakes as real, t.coll as real, n as real, c0 as real);
  }

  /** After n rounds the error is below n times the growth of the collateral, whatever the entrants are. */
  lemma GapBounded(t: Totals, rounds: seq<Round>)
    requires t.coll > 0 && Possible(t, rounds) && rounds != []
    ensures var r := After(t, rounds);
            0.0 <= Exact(t, rounds) - r.stakes as real < Allowance(|rounds|, r.coll, t.coll)
  {
    hide After, Exact, Gap, Share, Allowance;
    GapPerRound(t, rounds);
    RelativeGapBounded(t, rounds);
    GapAllowed(Exact(t, rounds), After(t, rounds), |rounds|, t.coll);
  }

  /** The off-chain loop. */
  method Recompute(totalStakes: nat, totalColl: nat, rounds: seq<Round>) returns (stakes: nat, coll: nat)
    requires totalColl > 0 && Possible(Totals(totalStakes, totalColl), rounds)
    ensures Totals(stakes, coll) == After(Totals(totalStakes, totalColl), rounds)
    ensures var exact := Exact(Totals(totalStakes, totalColl), rounds);
            rounds != [] ==> 0.0 <= exact - stakes as real < Allowance(|rounds|, coll, totalColl)
  {
    hide NewStake, Exact, Allowance;
    ghost var t := Totals(totalStakes, totalColl);
    stakes, coll := totalStakes, totalColl;
    for i := 0 to |rounds|
      invariant coll > 0 && Totals(stakes, coll) == After(t, rounds[..i])
    {
      assert rounds[..i + 1][..i] == rounds[..i];
      assert rounds[i].removed <= After(t, rounds[..i]).stakes;
      stakes := stakes - rounds[i].removed;
      var stake := NewStake(rounds[i].entrant, stakes, coll);
      stakes := stakes + stake;
      coll := coll + rounds[i].entrant;
    }
    assert rounds[..|rounds|] == rounds;
    if rounds != [] {
      GapBounded(t, rounds);
    }
  }
}
