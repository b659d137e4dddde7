/**
 The second token model: a redemption fee that rises with the redeemed share of the supply and
 decays every step, and a price that clears the market under a hard ceiling. Floats are reals;
 the ether price enters only through its momentum, which is an input.
 */
module ModelV2 {
  import opened Arithmetic

  const CEILING: real := 1.1

  datatype Params = Params(decay: real, priceWeight: real, momentumWeight: real, maxRedemptionFraction: real)
  {
    predicate Valid() {
      0.0 <= decay <= 1.0 && priceWeight > 0.0 && maxRedemptionFraction >= 0.0
    }

    /** The fixed point of the fee recurrence when everything above the fee is redeemed. */
    function FeeBound(): (bound: real)
      requires Valid()
      ensures bound >= 0.0 && bound == (1.0 + bound) / 2.0 * decay
    {
      var bound := decay / (2.0 - decay);
      BoundFixed(bound, decay);
      bound
    }
  }

  /** The latest entries of the time series that the next step reads. */
  datatype Latest = Latest(baseFee: real, tokenPrice: real, troveIssuance: real, tokenSupply: real)
  {
    predicate Valid(params: Params)
      requires params.Valid()
    {
      0.0 <= baseFee <= params.FeeBound() && 0.0 <= tokenPrice <= CEILING && tokenSupply == troveIssuance >= 0.0
    }
  }

  function NonNegative(x: real): real { if x < 0.0 then 0.0 else x }

  function NewRedeemedAmount(l: Latest, params: Params): real {
    var maxRedeemable := l.tokenSupply * params.maxRedemptionFraction;
    if maxRedeemable == 0.0 then 0.0
    else
      var redeemed := (1.0 - l.tokenPrice - l.baseFee) * l.tokenSupply;
      if redeemed < 0.0 then 0.0 else MinReal(redeemed, maxRedeemable)
  }

  function NewBaseFee(l: Latest, params: Params, redeemed: real): real {
    if l.tokenSupply == 0.0 then 0.0
    else (l.baseFee + redeemed / (2.0 * l.tokenSupply)) * params.decay
  }

  function NewTokenPrice(l: Latest, params: Params, demand: real, redeemed: real, momentum: real): real
    requires l.troveIssuance != 0.0 && params.Valid()
  {
    NonNegative(((demand - redeemed) / l.troveIssuance - params.momentumWeight * momentum) / params.priceWeight)
  }

  function NewTroveIssuance(l: Latest, params: Params, price: real, momentum: real): real {
    NonNegative(l.troveIssuance * (params.priceWeight * price + params.momentumWeight * momentum))
  }

  function NewTokenSupply(issuance: real, redeemed: real): real { NonNegative(issuance - redeemed) }

  function ExcessIssuance(price: real, supply: real): real {
    if price > CEILING then supply * (price - CEILING) / CEILING else 0.0
  }

  // ---- Single functions ----

  /** A redemption takes at most the share of the supply by which price and fee fall short of one. */
  lemma RedeemedShare(l: Latest, params: Params)
    requires params.Valid() && l.Valid(params)
    ensures var redeemed := NewRedeemedAmount(l, params);
            0.0 <= redeemed <= l.tokenSupply
            && (redeemed > 0.0 ==> l.tokenPrice + l.baseFee < 1.0 && redeemed <= (1.0 - l.tokenPrice - l.baseFee) * l.tokenSupply)
  {
    hide Params.FeeBound;
    var share := 1.0 - l.tokenPrice - l.baseFee;
    ShareOf(share, l.tokenSupply, share * l.tokenSupply);
    Product(l.tokenSupply, params.maxRedemptionFraction);
  }

  lemma ShareOf(share: real, supply: real, raw: real)
    requires share <= 1.0 && supply >= 0.0 && raw == share * supply
    ensures raw <= supply && (raw > 0.0 ==> share > 0.0)
  {
    PartAtMost(share, supply);
    if share <= 0.0 {
      LessEqualTimes(share, 0.0, supply);
    }
  }

  /** What is redeemed is the supply times the shortfall of price and fee from one, at most the share that may go at once. */
  lemma RedeemedExactly(l: Latest, params: Params)
    requires params.Valid() && l.Valid(params)
    ensures NewRedeemedAmount(l, params)
            == MinReal(NonNegative(1.0 - l.tokenPrice - l.baseFee), params.maxRedemptionFraction) * l.tokenSupply
  {
    hide Params.FeeBound;
    var share, supply := 1.0 - l.tokenPrice - l.baseFee, l.tokenSupply;
    SmallerShare(share, params.maxRedemptionFraction, supply, share * supply, supply * params.maxRedemptionFraction,
                 MinReal(NonNegative(share), params.maxRedemptionFraction) * supply);
  }

  lemma SmallerShare(share: real, most: real, supply: real, raw: real, cap: real, smaller: real)
    requires supply >= 0.0 && most >= 0.0 && raw == share * supply && cap == supply * most
    requires smaller == MinReal(NonNegative(share), most) * supply
    ensures smaller == if cap == 0.0 || raw < 0.0 then 0.0 else MinReal(raw, cap)
  {
    if share >= 0.0 && supply > 0.0 {
      LessEqualTimes(0.0, share, supply);
      if share <= most {
        LessEqualTimes(share, most, supply);
      } else {
        LessEqualTimes(most, share, supply);
      }
    } else if supply > 0.0 {
      LessTimes(share, 0.0, supply);
    }
  }

  /** The fee is raised by half the redeemed share and then decays. */
  lemma FeeExactly(l: Latest, params: Params, redeemed: real)
    ensures if l.tokenSupply == 0.0 then NewBaseFee(l, params, redeemed) == 0.0
            else 2.0 * l.tokenSupply * NewBaseFee(l, params, redeemed) == (2.0 * l.tokenSupply * l.baseFee + redeemed) * params.decay
  {
    if l.tokenSupply != 0.0 {
      var q, d := redeemed / (2.0 * l.tokenSupply), 2.0 * l.tokenSupply;
      assert q * d == redeemed;
      assert d * ((l.baseFee + q) * params.decay) == (d * l.baseFee + redeemed) * params.decay;
    }
  }

  lemma HalfShare(redeemed: real, share: real, supply: real)
    requires supply > 0.0 && 0.0 <= redeemed <= share * supply
    ensures 0.0 <= HalfOf(redeemed, supply) <= share / 2.0
  {
    var q := redeemed / (2.0 * supply);
    assert q * (2.0 * supply) == redeemed;
    CancelLessEqual(2.0 * supply, 0.0, q);
    CancelLessEqual(2.0 * supply, q, share / 2.0);
  }

  /** The bound maps to itself: a fee `b` moves to at most `decay * (1 + b) / 2`. */
  lemma FeeStays(b: real, half: real, sum: real, decay: real, bound: real)
    requires 0.0 <= decay <= 1.0 && bound == (1.0 + bound) / 2.0 * decay && 0.0 <= b <= bound
    requires 0.0 <= half && (half <= (1.0 - b) / 2.0 || half == 0.0) && sum == b + half
    ensures 0.0 <= sum * decay <= bound
  {
    Product(sum, decay);
    if half == 0.0 {
      DecayOnly(sum, decay, bound);
    } else {
      LessEqualTimes(sum, (1.0 + bound) / 2.0, decay);
    }
  }

  lemma DecayOnly(b: real, decay: real, bound: real)
    requires 0.0 <= decay <= 1.0 && 0.0 <= b <= bound
    ensures b * decay <= bound
  {
    assert b * (1.0 - decay) >= 0.0;
  }

  lemma BoundFixed(bound: real, decay: real)
    requires 0.0 <= decay <= 1.0 && bound == decay / (2.0 - decay)
    ensures (1.0 + bound) / 2.0 * decay == bound && bound >= 0.0
  {
    assert bound * (2.0 - decay) == decay;
    var c := 2.0 - decay;
    assert 0.0 * c <= bound * c;
    CancelLessEqual(c, 0.0, bound);
    assert 2.0 * bound - bound * decay == decay;
  }

  /** The base fee never leaves `[0, decay / (2 - decay)]`. */
  lemma FeeBounded(l: Latest, params: Params)
    requires params.Valid() && l.Valid(params)
    ensures 0.0 <= NewBaseFee(l, params, NewRedeemedAmount(l, params)) <= params.FeeBound()
  {
    hide NewRedeemedAmount, NewBaseFee, Params.FeeBound, HalfOf;
    RedeemedShare(l, params);
    var redeemed, bound := NewRedeemedAmount(l, params), params.FeeBound();
    if l.tokenSupply == 0.0 {
      NoSupplyNoFee(l, params, redeemed);
    } else {
      var half := HalfOf(redeemed, l.tokenSupply);
      FeeIs(l, params, redeemed, half);
      if redeemed > 0.0 {
        HalfShare(redeemed, 1.0 - l.tokenPrice - l.baseFee, l.tokenSupply);
      } else {
        HalfOfNothing(l.tokenSupply);
      }
      FeeStays(l.baseFee, half, l.baseFee + half, params.decay, bound);
    }
  }

  function HalfOf(redeemed: real, supply: real): real
    requires supply != 0.0
  {
    redeemed / (2.0 * supply)
  }

  lemma HalfOfNothing(supply: real)
    requires supply != 0.0
    ensures HalfOf(0.0, supply) == 0.0
  {
  }

  lemma FeeIs(l: Latest, params: Params, redeemed: real, half: real)
    requires l.tokenSupply != 0.0 && half == HalfOf(redeemed, l.tokenSupply)
    ensures NewBaseFee(l, params, redeemed) == (l.baseFee + half) * params.decay
  {
  }

  lemma NoSupplyNoFee(l: Latest, params: Params, redeemed: real)
    requires l.tokenSupply == 0.0
    ensures NewBaseFee(l, params, redeemed) == 0.0
  {
  }

  /** Below the ceiling and above zero, the price clears the market: the new issuance is what is still demanded. */
  lemma MarketClears(l: Latest, params: Params, demand: real, redeemed: real, momentum: real)
    requires params.Valid() && l.troveIssuance > 0.0
    requires NewTokenPrice(l, params, demand, redeemed, momentum) > 0.0
    ensures NewTroveIssuance(l, params, NewTokenPrice(l, params, demand, redeemed, momentum), momentum)
            == NonNegative(demand - redeemed)
  {
    var share := (demand - redeemed) / l.troveIssuance;
    var pull := params.momentumWeight * momentum;
    var price := (share - pull) / params.priceWeight;
    assert price * params.priceWeight == share - pull;
    assert l.troveIssuance * share == demand - redeemed;
    assert params.priceWeight * price + pull == share;
  }

  /** The price is zero exactly when momentum alone asks for at least what is still demanded. */
  lemma PriceVanishes(l: Latest, params: Params, demand: real, redeemed: real, momentum: real)
    requires params.Valid() && l.troveIssuance > 0.0
    ensures NewTokenPrice(l, params, demand, redeemed, momentum) == 0.0
            <==> demand - redeemed <= params.momentumWeight * momentum * l.troveIssuance
    ensures NewTroveIssuance(l, params, 0.0, momentum) == NonNegative(l.troveIssuance * (params.momentumWeight * momentum))
  {
    var left, pull := demand - redeemed, params.momentumWeight * momentum;
    Quotient(left, l.troveIssuance);
    if left <= pull * l.troveIssuance {
      ShareAtMost(left, l.troveIssuance, pull, left / l.troveIssuance);
    }
    if left / l.troveIssuance <= pull {
      LessEqualTimes(left / l.troveIssuance, pull, l.troveIssuance);
    }
    SignOfQuotient(left / l.troveIssuance - pull, params.priceWeight);
  }

  lemma ShareAtMost(left: real, issuance: real, pull: real, share: real)
    requires issuance > 0.0 && share * issuance == left && left <= pull * issuance
    ensures share <= pull
  {
    CancelLessEqual(issuance, share, pull);
  }

  lemma SignOfQuotient(x: real, d: real)
    requires d > 0.0
    ensures x / d <= 0.0 <==> x <= 0.0
  {
    var q := x / d;
    assert q * d == x;
    if q <= 0.0 {
      LessEqualTimes(q, 0.0, d);
    } else {
      LessTimes(0.0, q, d);
    }
  }

  /** The excess keeps the value of the issuance at the ceiling price exactly when nothing was redeemed. */
  lemma CeilingKeepsValue(price: real, issuance: real, redeemed: real)
    requires price > CEILING && 0.0 <= redeemed <= issuance
    ensures var topped := issuance + ExcessIssuance(price, NewTokenSupply(issuance, redeemed));
            CEILING * topped <= price * issuance
            && (CEILING * topped == price * issuance <==> redeemed == 0.0)
            && CEILING * topped == price * issuance - redeemed * (price - CEILING)
    ensures forall p, supply | p <= CEILING :: ExcessIssuance(p, supply) == 0.0
  {
    var supply, gap := issuance - redeemed, price - CEILING;
    var excess := supply * gap / CEILING;
    assert CEILING * excess == supply * gap;
    ValueGap(issuance, redeemed, gap, supply);
  }

  lemma ValueGap(issuance: real, redeemed: real, gap: real, supply: real)
    requires supply == issuance - redeemed && gap > 0.0 && redeemed >= 0.0
    ensures supply * gap == issuance * gap - redeemed * gap
    ensures redeemed * gap >= 0.0 && (redeemed * gap == 0.0 <==> redeemed == 0.0)
  {
  }

  lemma ExcessNonNegative(price: real, supply: real)
    requires supply >= 0.0
    ensures ExcessIssuance(price, supply) >= 0.0
  {
    if price > CEILING {
      Product(supply, price - CEILING);
    }
  }

  // ---- The run ----

  class Model {
    const params: Params
    var baseFee: seq<real>
    var redeemedAmount: seq<real>
    var tokenPrice: seq<real>
    var troveIssuance: seq<real>
    var tokenSupply: seq<real>
    var tokenDemand: real

    predicate SameLength()
      reads this
    {
      0 < |baseFee| == |redeemedAmount| == |tokenPrice| == |troveIssuance| == |tokenSupply|
    }

    function At(i: nat): Latest
      requires SameLength() && i < |baseFee|
      reads this
    {
      Latest(baseFee[i], tokenPrice[i], troveIssuance[i], tokenSupply[i])
    }

    function Last(): Latest
      requires SameLength()
      reads this
    {
      At(|baseFee| - 1)
    }

    /** All entries so far, the latest last. */
    ghost function History(): seq<Latest>
      requires SameLength()
      reads this
    {
      Records(baseFee, tokenPrice, troveIssuance, tokenSupply)
    }

    /** Every entry is within its bounds, and every redemption follows from the entry before it. */
    ghost predicate Valid()
      reads this
    {
      params.Valid() && SameLength() && Sound(History(), redeemedAmount, params)
    }

    constructor (params: Params)
      requires params.Valid()
      ensures Valid() && this.params == params && |baseFee| == 1
      ensures At(0) == Latest(0.0, 1.0, 100.0, 100.0)
    {
      this.params := params;
      baseFee, redeemedAmount, tokenPrice := [0.0], [0.0], [1.0];
      troveIssuance, tokenSupply, tokenDemand := [100.0], [100.0], 100.0;
      new;
    }

    /** One time step; an issuance of zero makes the price undefined and is an error. */
    method Step(momentum: real) returns (ok: bool)
      requires Valid()
      modifies this
      ensures Valid() && SameLength()
      ensures ok <==> old(Last().troveIssuance) != 0.0
      ensures if ok then History() == old(History()) + [Last()] && StepsTo(old(Last()), params, momentum, Last())
              else unchanged(this)
    {
      hide NewRedeemedAmount, NewBaseFee, NewTokenPrice, NewTroveIssuance, ExcessIssuance, Params.FeeBound;
      var last := At(|baseFee| - 1);
      if last.troveIssuance == 0.0 {
        return false;
      }
      var redeemed := NewRedeemedAmount(last, params);
      var fee := NewBaseFee(last, params, redeemed);
      FeeBounded(last, params);
      tokenDemand := 100.0;
      var price := NewTokenPrice(last, params, tokenDemand, redeemed, momentum);
      PriceNonNegative(last, params, tokenDemand, redeemed, momentum);
      var issuance := NewTroveIssuance(last, params, price, momentum);
      IssuanceNonNegative(last, params, price, momentum);
      var supply := NewTokenSupply(issuance, redeemed);
      var excess := ExcessIssuance(price, supply);
      ExcessNonNegative(price, supply);
      if price > CEILING {
        price := CEILING;
      }
      issuance := issuance + excess;
      supply := NewTokenSupply(issuance, 0.0);
      assert StepsTo(last, params, momentum, Latest(fee, price, issuance, supply));
      LastOf(last);
      RecordsAppend(baseFee, tokenPrice, troveIssuance, tokenSupply, Latest(fee, price, issuance, supply));
      SoundAppend(History(), redeemedAmount, params, redeemed, Latest(fee, price, issuance, supply));
      hide Records, StepsTo, Sound;
      baseFee, redeemedAmount, tokenPrice := baseFee + [fee], redeemedAmount + [redeemed], tokenPrice + [price];
      troveIssuance, tokenSupply := troveIssuance + [issuance], tokenSupply + [supply];
      ok := true;
    }

    lemma LastOf(last: Latest)
      requires Valid() && last == Last()
      ensures last == History()[|History()| - 1] && last.Valid(params)
    {
    }

    lemma SameLengths()
      requires Valid()
      ensures params.Valid() && SameLength() && |History()| > 0 && Last() == History()[|History()| - 1]
    {
    }

    /** All steps, up to the first error. */
    method Run(momenta: seq<real>) returns (steps: nat)
      requires Valid()
      modifies this
      ensures Valid() && SameLength() && steps <= |momenta|
      ensures exists added :: History() == old(History()) + added && Chain(old(Last()), params, momenta[..steps], added)
      ensures steps < |momenta| ==> Last().troveIssuance == 0.0
    {
      SameLengths();
      hide *;
      steps := 0;
      ghost var before, added: seq<Latest> := History(), [];
      NoSteps(Last(), params, momenta, before);
      while steps < |momenta|
        invariant Valid() && SameLength() && steps <= |momenta| && |before| > 0
        invariant Added(before, added, params, momenta, steps, History())
      {
        SameLengths();
        ghost var last := Last();
        var ok := Step(momenta[steps]);
        if !ok {
          AddedMeans(before, added, params, momenta, steps, History());
          return;
        }
        OneStep(before, added, params, momenta, steps, last, Last());
        steps, added := steps + 1, added + [Last()];
      }
      AddedMeans(before, added, params, momenta, steps, History());
    }
  }

  ghost function Records(fees: seq<real>, prices: seq<real>, issuances: seq<real>, supplies: seq<real>): (h: seq<Latest>)
    requires |fees| == |prices| == |issuances| == |supplies|
    ensures |h| == |fees| && forall i | 0 <= i < |h| :: h[i] == Latest(fees[i], prices[i], issuances[i], supplies[i])
  {
    seq(|fees|, i requires 0 <= i < |fees| => Latest(fees[i], prices[i], issuances[i], supplies[i]))
  }

  /** Every entry is within its bounds, and every redemption follows from the entry before it. */
  ghost predicate Sound(h: seq<Latest>, redeemed: seq<real>, params: Params)
    requires params.Valid()
  {
    0 < |h| == |redeemed| && (forall i | 0 <= i < |h| :: h[i].Valid(params))
    && forall i | 0 < i < |h| :: FollowsFee(h[i - 1], params, redeemed[i], h[i])
  }

  ghost predicate FollowsFee(l: Latest, params: Params, redeemed: real, r: Latest)
    requires params.Valid()
  {
    redeemed == NewRedeemedAmount(l, params) && r.baseFee == NewBaseFee(l, params, redeemed)
  }

  lemma SoundAppend(h: seq<Latest>, redeemed: seq<real>, params: Params, amount: real, r: Latest)
    requires params.Valid() && Sound(h, redeemed, params) && r.Valid(params) && FollowsFee(h[|h| - 1], params, amount, r)
    ensures Sound(h + [r], redeemed + [amount], params)
  {
    hide FollowsFee, Latest.Valid;
  }

  lemma RecordsAppend(fees: seq<real>, prices: seq<real>, issuances: seq<real>, supplies: seq<real>, r: Latest)
    requires |fees| == |prices| == |issuances| == |supplies|
    ensures Records(fees + [r.baseFee], prices + [r.tokenPrice], issuances + [r.troveIssuance], supplies + [r.tokenSupply])
            == Records(fees, prices, issuances, supplies) + [r]
  {
  }

  /** The entry before position `i` of the entries added after `first`. */
  function Before(first: Latest, added: seq<Latest>, i: nat): Latest
    requires i <= |added|
  {
    if i == 0 then first else added[i - 1]
  }

  /** Each added entry follows from the one before it, the first from `last`. */
  ghost predicate Chain(last: Latest, params: Params, momenta: seq<real>, added: seq<Latest>)
    requires params.Valid()
  {
    |added| == |momenta|
    && forall i | 0 <= i < |added| :: StepsTo(Before(last, added, i), params, momenta[i], added[i])
  }

  ghost predicate Added(before: seq<Latest>, added: seq<Latest>, params: Params, momenta: seq<real>, steps: nat, now: seq<Latest>)
    requires params.Valid() && |before| > 0
  {
    steps <= |momenta| && now == before + added && Chain(before[|before| - 1], params, momenta[..steps], added)
  }

  lemma NoSteps(last: Latest, params: Params, momenta: seq<real>, before: seq<Latest>)
    requires params.Valid() && |before| > 0
    ensures Added(before, [], params, momenta, 0, before)
  {
    assert before + [] == before;
  }

  lemma AddedMeans(before: seq<Latest>, added: seq<Latest>, params: Params, momenta: seq<real>, steps: nat, now: seq<Latest>)
    requires params.Valid() && |before| > 0 && Added(before, added, params, momenta, steps, now)
    ensures steps <= |momenta| && now == before + added && Chain(before[|before| - 1], params, momenta[..steps], added)
  {
  }

  lemma OneStep(before: seq<Latest>, added: seq<Latest>, params: Params, momenta: seq<real>, steps: nat, last: Latest, next: Latest)
    requires params.Valid() && |before| > 0 && steps < |momenta| && Added(before, added, params, momenta, steps, before + added)
    requires last == (before + added)[|before + added| - 1] && StepsTo(last, params, momenta[steps], next)
    ensures Added(before, added + [next], params, momenta, steps + 1, before + added + [next])
  {
    hide StepsTo, Chain;
    ChainSize(before[|before| - 1], params, momenta[..steps], added);
    assert last == Before(before[|before| - 1], added, |added|);
    assert before + (added + [next]) == before + added + [next];
    assert momenta[..steps + 1] == momenta[..steps] + [momenta[steps]];
    ChainStep(before[|before| - 1], params, momenta[..steps], added, momenta[steps], next);
  }

  lemma ChainSize(first: Latest, params: Params, momenta: seq<real>, added: seq<Latest>)
    requires params.Valid() && Chain(first, params, momenta, added)
    ensures |added| == |momenta|
  {
  }

  lemma ChainStep(first: Latest, params: Params, momenta: seq<real>, added: seq<Latest>, momentum: real, next: Latest)
    requires params.Valid() && Chain(first, params, momenta, added)
    requires StepsTo(Before(first, added, |added|), params, momentum, next)
    ensures Chain(first, params, momenta + [momentum], added + [next])
  {
    hide StepsTo;
    var longer := added + [next];
    forall i | 0 <= i < |longer|
      ensures StepsTo(Before(first, longer, i), params, (momenta + [momentum])[i], longer[i])
    {
      assert Before(first, longer, i) == Before(first, added, i);
    }
  }

  /** The market outcome of a step: a clearing price under the ceiling, and the excess issued above it. */
  ghost predicate StepsTo(l: Latest, params: Params, momentum: real, r: Latest)
    requires params.Valid()
  {
    l.troveIssuance != 0.0 &&
    var redeemed := NewRedeemedAmount(l, params);
    var price := NewTokenPrice(l, params, 100.0, redeemed, momentum);
    var issuance := NewTroveIssuance(l, params, price, momentum);
    r.baseFee == NewBaseFee(l, params, redeemed)
    && r.tokenPrice == MinReal(price, CEILING)
    && r.troveIssuance == issuance + ExcessIssuance(price, NewTokenSupply(issuance, redeemed))
    && r.tokenSupply == r.troveIssuance
  }

  lemma PriceNonNegative(l: Latest, params: Params, demand: real, redeemed: real, momentum: real)
    requires params.Valid() && l.troveIssuance != 0.0
    ensures NewTokenPrice(l, params, demand, redeemed, momentum) >= 0.0
  {
  }

  lemma IssuanceNonNegative(l: Latest, params: Params, price: real, momentum: real)
    ensures NewTroveIssuance(l, params, price, momentum) >= 0.0
  {
  }
}
