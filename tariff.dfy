/** The EVN residential tariff of the tiered variant: six blocks of marginal prices
    (đ/kWh), VAT of 8 %, amounts reported in thousands of đồng. */
module Tariff {
  import opened Wrappers

  /** One block of the tariff: `block` kWh at `price` đ/kWh; the last block has no
      size and takes everything that is left. */
  datatype Tier = Tier(block: Option<real>, price: real)

  /** The tier table, in the order the blocks are consumed. */
  const EvnTiers: seq<Tier> := [
    Tier(Some(50.0), 1984.0),
    Tier(Some(50.0), 2050.0),
    Tier(Some(100.0), 2380.0),
    Tier(Some(100.0), 2998.0),
    Tier(Some(100.0), 3350.0),
    Tier(None, 3460.0)
  ]

  /** The multiplier applied to the energy charge (8 % VAT). */
  const VatFactor: real := 1.08

  /** Selling price, đ/kWh, without VAT. */
  const SellPrice: real := 2275.0

  function Max(a: real, b: real): real {
    if a >= b then a else b
  }

  function Min(a: real, b: real): real {
    if a <= b then a else b
  }

  /** What one block takes out of `remain`. */
  function Take(t: Tier, remain: real): real {
    match t.block
    case None => remain
    case Some(b) => Min(remain, b)
  }

  /** The energy charge of `remain` kWh, consumed through `tiers` in order and
      stopping as soon as nothing is left. */
  function TierSum(tiers: seq<Tier>, remain: real): real
    decreases |tiers|
  {
    if tiers == [] then 0.0
    else
      var take := Take(tiers[0], remain);
      take * tiers[0].price
      + (if remain - take <= 0.0 then 0.0 else TierSum(tiers[1..], remain - take))
  }

  /** The cost of `kwh` (negative readings count as nothing) under `tiers`, VAT
      included, in thousands. */
  function TieredCost(tiers: seq<Tier>, kwh: real): real {
    TierSum(tiers, Max(kwh, 0.0)) * VatFactor / 1000.0
  }

  /** The cost the tiered variant reports for `kwh`. */
  function Cost(kwh: real): real {
    TieredCost(EvnTiers, kwh)
  }

  /** `_cost_K`: the loop over the blocks, each capped by its size, leaving the loop
      once nothing remains. */
  method CostK(tiers: seq<Tier>, kwh: real) returns (c: real)
    ensures c == TieredCost(tiers, kwh)
  {
    var remain := Max(kwh, 0.0);
    var cost := 0.0;
    var i := 0;
    while i < |tiers|
      invariant 0 <= i <= |tiers|
      invariant cost + TierSum(tiers[i..], remain) == TierSum(tiers, Max(kwh, 0.0))
    {
      var t := tiers[i];
      var take := if t.block.None? then remain else Min(remain, t.block.value);
      cost := cost + take * t.price;
      remain := remain - take;
      if remain <= 0.0 {
        break;
      }
      i := i + 1;
    }
    cost := cost * VatFactor;
    c := cost / 1000.0;
  }

  /** Block sizes positive, prices not negative. */
  predicate WellFormed(tiers: seq<Tier>) {
    forall i :: 0 <= i < |tiers| ==>
      tiers[i].price >= 0.0 && (tiers[i].block.Some? ==> tiers[i].block.value > 0.0)
  }

  lemma EvnTiersWellFormed()
    ensures WellFormed(EvnTiers)
  {
  }

  lemma {:induction false} TierSumNonNegative(tiers: seq<Tier>, remain: real)
    requires WellFormed(tiers) && remain >= 0.0
    ensures TierSum(tiers, remain) >= 0.0
    decreases |tiers|
  {
    if tiers != [] {
      var take := Take(tiers[0], remain);
      assert take >= 0.0;
      assert take * tiers[0].price >= 0.0;
      if remain - take > 0.0 {
        assert WellFormed(tiers[1..]) by {
          forall i | 0 <= i < |tiers[1..]| ensures tiers[1..][i] == tiers[i + 1] { }
        }
        TierSumNonNegative(tiers[1..], remain - take);
      }
    }
  }

  lemma TakeMonotone(t: Tier, a: real, b: real)
    requires 0.0 <= a <= b && (t.block.Some? ==> t.block.value > 0.0)
    ensures 0.0 <= Take(t, a) <= Take(t, b)
    ensures a - Take(t, a) <= b - Take(t, b)
  {
  }

  lemma MulMono(x: real, y: real, p: real)
    requires x <= y && p >= 0.0
    ensures x * p <= y * p
  {
  }

  /** More energy never costs less. */
  lemma {:induction false} TierSumMonotone(tiers: seq<Tier>, a: real, b: real)
    requires WellFormed(tiers) && 0.0 <= a <= b
    ensures TierSum(tiers, a) <= TierSum(tiers, b)
    decreases |tiers|
  {
    if tiers != [] {
      var ta, tb := Take(tiers[0], a), Take(tiers[0], b);
      TakeMonotone(tiers[0], a, b);
      MulMono(ta, tb, tiers[0].price);
      assert WellFormed(tiers[1..]) by {
        forall i | 0 <= i < |tiers[1..]| ensures tiers[1..][i] == tiers[i + 1] { }
      }
      if a - ta > 0.0 {
        TierSumMonotone(tiers[1..], a - ta, b - tb);
      } else if b - tb > 0.0 {
        TierSumNonNegative(tiers[1..], b - tb);
      }
    }
  }

  /** The reported cost is never negative. */
  lemma CostNonNegative(kwh: real)
    ensures Cost(kwh) >= 0.0
  {
    EvnTiersWellFormed();
    TierSumNonNegative(EvnTiers, Max(kwh, 0.0));
  }

  /** The reported cost grows with the energy. */
  lemma CostMonotone(a: real, b: real)
    requires a <= b
    ensures Cost(a) <= Cost(b)
  {
    EvnTiersWellFormed();
    TierSumMonotone(EvnTiers, Max(a, 0.0), Max(b, 0.0));
  }

  /** A first block of `b` kWh at `p`: below its size it prices everything, above it
      it prices `b` and hands the rest on. */
  lemma TierSumHead(t: Tier, rest: seq<Tier>, x: real)
    requires t.block.Some? && t.block.value > 0.0 && x >= 0.0
    ensures TierSum([t] + rest, x)
            == if x <= t.block.value then x * t.price
               else t.block.value * t.price + TierSum(rest, x - t.block.value)
  {
    assert ([t] + rest)[1..] == rest;
  }

  lemma TierSumLast(t: Tier, x: real)
    requires t.block.None?
    ensures TierSum([t], x) == x * t.price
  {
  }

  /** The energy charge of the EVN table written out block by block: 1984 đ for each
      of the first 50 kWh, 2050 for the next 50, then 2380, 2998 and 3350 for three
      blocks of 100 kWh, and 3460 for everything above 400 kWh. */
  function Schedule(x: real): real {
    if x <= 50.0 then 1984.0 * x
    else if x <= 100.0 then 50.0 * 1984.0 + 2050.0 * (x - 50.0)
    else if x <= 200.0 then 50.0 * 1984.0 + 50.0 * 2050.0 + 2380.0 * (x - 100.0)
    else if x <= 300.0 then 50.0 * 1984.0 + 50.0 * 2050.0 + 100.0 * 2380.0 + 2998.0 * (x - 200.0)
    else if x <= 400.0 then 50.0 * 1984.0 + 50.0 * 2050.0 + 100.0 * 2380.0 + 100.0 * 2998.0
                            + 3350.0 * (x - 300.0)
    else 50.0 * 1984.0 + 50.0 * 2050.0 + 100.0 * 2380.0 + 100.0 * 2998.0 + 100.0 * 3350.0
         + 3460.0 * (x - 400.0)
  }

  /** The loop over the tier table charges exactly the block-by-block schedule. */
  lemma TierSumIsSchedule(x: real)
    requires x >= 0.0
    ensures TierSum(EvnTiers, x) == Schedule(x)
  {
    var t5 := [Tier(None, 3460.0)];
    var t4 := [Tier(Some(100.0), 3350.0)] + t5;
    var t3 := [Tier(Some(100.0), 2998.0)] + t4;
    var t2 := [Tier(Some(100.0), 2380.0)] + t3;
    var t1 := [Tier(Some(50.0), 2050.0)] + t2;
    assert EvnTiers == [Tier(Some(50.0), 1984.0)] + t1;
    TierSumHead(Tier(Some(50.0), 1984.0), t1, x);
    if x > 50.0 {
      TierSumHead(Tier(Some(50.0), 2050.0), t2, x - 50.0);
      if x > 100.0 {
        TierSumHead(Tier(Some(100.0), 2380.0), t3, x - 100.0);
        if x > 200.0 {
          TierSumHead(Tier(Some(100.0), 2998.0), t4, x - 200.0);
          if x > 300.0 {
            TierSumHead(Tier(Some(100.0), 3350.0), t5, x - 300.0);
            if x > 400.0 {
              TierSumLast(Tier(None, 3460.0), x - 400.0);
            }
          }
        }
      }
    }
  }

  /** The cost in thousands, VAT included, is the schedule of `max(kwh, 0)` times 1.08
      over 1000. */
  lemma CostIsSchedule(kwh: real)
    ensures Cost(kwh) == Schedule(Max(kwh, 0.0)) * 1.08 / 1000.0
  {
    TierSumIsSchedule(Max(kwh, 0.0));
  }

  /** The three reference prices: nothing for nothing, the first block alone, the first
      two blocks. */
  lemma CostReferencePoints()
    ensures Cost(0.0) == 0.0
    ensures Cost(50.0) == 50.0 * 1984.0 * 1.08 / 1000.0
    ensures Cost(100.0) == (50.0 * 1984.0 + 50.0 * 2050.0) * 1.08 / 1000.0
  {
    CostIsSchedule(0.0);
    CostIsSchedule(50.0);
    CostIsSchedule(100.0);
  }

  /** Selling revenue in thousands: a flat price, no tiers and no VAT. */
  function Revenue(kwh: real): (r: real)
    ensures kwh >= 0.0 ==> r >= 0.0
    ensures r * 1000.0 == kwh * SellPrice
  {
    kwh * SellPrice / 1000.0
  }
}
