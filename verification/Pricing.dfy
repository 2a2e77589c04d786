/** Dynamic price and trust discount, in exact arithmetic with JavaScript's rounding. */
module Pricing {
  import opened Options

  datatype Config = Config(base: nat, max: nat, threshold: real)

  /** Math.round: to the nearest integer, halves upwards. */
  function Round(x: real): int { (x + 0.5).Floor }

  function Clamp01(x: real): real { if x < 0.0 then 0.0 else if x > 1.0 then 1.0 else x }

  /**
   How far the load has come from the threshold to full; a threshold of 1 divides by zero, and so gives all or
   nothing.
   */
  function Ratio(c: Config, load: real): real
    requires load != c.threshold
  {
    if c.threshold == 1.0 then (if load > 1.0 then 1.0 else 0.0)
    else Clamp01((load - c.threshold) / (1.0 - c.threshold))
  }

  function DynamicPrice(c: Config, load: real): int
    requires load != c.threshold
  {
    Blend(c, Ratio(c, load))
  }

  function Blend(c: Config, ratio: real): int {
    Round(c.base as real + ratio * (c.max - c.base) as real)
  }

  function TrustScore(paidCount: nat): nat { if paidCount * 5 < 100 then paidCount * 5 else 100 }

  /** A full score halves the price. */
  function Factor(score: nat): real { 1.0 - score as real / 200.0 }

  function Discounted(c: Config, price: int, score: nat): int {
    var p := Round(price as real * Factor(score));
    if p < c.base then c.base else p
  }

  /** The quote of a challenge; below or at the threshold a request is not challenged. */
  function Quote(c: Config, load: real, paidCount: nat): Option<int> {
    if load <= c.threshold then None
    else Some(Discounted(c, DynamicPrice(c, load), TrustScore(paidCount)))
  }

  lemma {:induction false} RoundMonotone(x: real, y: real)
    requires x <= y
    ensures Round(x) <= Round(y)
  {}

  lemma {:induction false} RoundExact(n: int)
    ensures Round(n as real) == n
  {}

  lemma {:induction false} ScaleMonotone(a: real, x: real, y: real)
    requires a >= 0.0 && x <= y
    ensures a * x <= a * y
  {}

  lemma {:induction false} BlendMonotone(c: Config, r: real, r': real)
    requires c.base <= c.max && r <= r'
    ensures Blend(c, r) <= Blend(c, r')
  {
    ScaleMonotone((c.max - c.base) as real, r, r');
    RoundMonotone(c.base as real + r * (c.max - c.base) as real, c.base as real + r' * (c.max - c.base) as real);
  }

  lemma {:induction false} BlendEnds(c: Config)
    ensures Blend(c, 0.0) == c.base && Blend(c, 1.0) == c.max
  {
    RoundExact(c.base);
    RoundExact(c.max);
  }

  lemma {:induction false} DivideMonotone(x: real, y: real, d: real)
    requires d > 0.0 && x <= y
    ensures x / d <= y / d
  {}

  lemma {:induction false} DivideNegative(x: real, d: real)
    requires d < 0.0 < x
    ensures x / d < 0.0
  {}

  /** Above a threshold over 1 the quotient is negative and the ratio stays 0. */
  lemma {:induction false} RatioMonotone(c: Config, load: real, heavier: real)
    requires c.threshold < load <= heavier
    ensures 0.0 <= Ratio(c, load) <= Ratio(c, heavier) <= 1.0
  {
    var room := 1.0 - c.threshold;
    if room > 0.0 {
      DivideMonotone(load - c.threshold, heavier - c.threshold, room);
    } else if room < 0.0 {
      DivideNegative(load - c.threshold, room);
      DivideNegative(heavier - c.threshold, room);
    }
  }

  /** The price of a challenge, before discounts, lies between base and max and grows with the load. */
  lemma {:induction false} DynamicPriceBounds(c: Config, load: real, heavier: real)
    requires c.threshold < load <= heavier && c.base <= c.max
    ensures c.base <= DynamicPrice(c, load) <= DynamicPrice(c, heavier) <= c.max
  {
    RatioMonotone(c, load, heavier);
    BlendEnds(c);
    BlendMonotone(c, 0.0, Ratio(c, load));
    BlendMonotone(c, Ratio(c, load), Ratio(c, heavier));
    BlendMonotone(c, Ratio(c, heavier), 1.0);
  }

  lemma {:induction false} NeverBelowBase(c: Config, price: int, score: nat)
    ensures c.base <= Discounted(c, price, score)
  {}

  lemma {:induction false} FactorFalls(score: nat, better: nat)
    requires score <= better
    ensures Factor(better) <= Factor(score)
  {}

  lemma {:induction false} RoundedMonotone(price: int, f: real, f': real)
    requires price >= 0 && f <= f'
    ensures Round(price as real * f) <= Round(price as real * f')
  {
    ScaleMonotone(price as real, f, f');
    RoundMonotone(price as real * f, price as real * f');
  }

  lemma {:induction false} BetterScoreNeverDearer(c: Config, price: int, score: nat, better: nat)
    requires price >= 0 && score <= better
    ensures Discounted(c, price, better) <= Discounted(c, price, score)
  {
    FactorFalls(score, better);
    RoundedMonotone(price, Factor(better), Factor(score));
  }

  lemma {:induction false} NoScoreNoDiscount(c: Config, price: int)
    requires c.base <= price
    ensures Discounted(c, price, 0) == price
  {
    assert Factor(0) == 1.0;
    RoundExact(price);
  }

  /** The discount never lifts a price, never undercuts the base, and grows with the score. */
  lemma {:induction false} DiscountBounds(c: Config, price: int, score: nat, better: nat)
    requires c.base <= price && score <= better
    ensures c.base <= Discounted(c, price, better) <= Discounted(c, price, score) <= price
  {
    NeverBelowBase(c, price, better);
    BetterScoreNeverDearer(c, price, score, better);
    BetterScoreNeverDearer(c, price, 0, score);
    NoScoreNoDiscount(c, price);
  }

  lemma {:induction false} DiscountMonotone(c: Config, price: int, dearer: int, score: nat)
    requires 0 <= price <= dearer && score <= 100
    ensures Discounted(c, price, score) <= Discounted(c, dearer, score)
  {
    var f := Factor(score);
    ScaleMonotone(f, price as real, dearer as real);
    RoundMonotone(price as real * f, dearer as real * f);
  }

  /**
   Every quote lies in [base, max], grows with the load, falls with the payments made, and is at most
   the undiscounted price; the load may exceed 1 and the threshold is free.
   */
  lemma {:induction false} QuoteBounds(c: Config, load: real, heavier: real, paid: nat, more: nat)
    requires c.threshold < load <= heavier && c.base <= c.max && paid <= more
    ensures Quote(c, load, paid).Some? && Quote(c, heavier, paid).Some? && Quote(c, load, more).Some?
    ensures c.base <= Quote(c, load, more).value <= Quote(c, load, paid).value
    ensures Quote(c, load, paid).value <= Quote(c, heavier, paid).value <= c.max
    ensures Quote(c, load, paid).value <= DynamicPrice(c, load)
  {
    DynamicPriceBounds(c, load, heavier);
    DiscountBounds(c, DynamicPrice(c, load), TrustScore(paid), TrustScore(more));
    DiscountMonotone(c, DynamicPrice(c, load), DynamicPrice(c, heavier), TrustScore(paid));
    DiscountBounds(c, DynamicPrice(c, heavier), TrustScore(paid), TrustScore(paid));
  }

  /** From the twentieth payment on the quote at a given load is constant. */
  lemma {:induction false} ConstantFromTwenty(c: Config, load: real, paid: nat)
    requires paid >= 20
    ensures Quote(c, load, paid) == Quote(c, load, 20)
  {}

  // ---- what the price is ----------------------------------------------------------------

  lemma {:induction false} RoundNearest(x: real)
    ensures x - 0.5 < Round(x) as real <= x + 0.5
  {}

  lemma {:induction false} DivideBack(r: real, d: real)
    requires d != 0.0
    ensures (r * d) / d == r
  {}

  /** `load` lies the fraction `r` of the way from the threshold to full load. */
  predicate Along(c: Config, load: real, r: real) {
    c.threshold < 1.0 && 0.0 < r && load == c.threshold + r * (1.0 - c.threshold)
  }

  /**
   The price before discounts rises in a straight line from the base at the threshold to the maximum at full load,
   rounded to the nearest unit, and stays there beyond.
   */
  lemma {:induction false} PriceOnTheLine(c: Config, load: real, r: real)
    requires Along(c, load, r)
    ensures c.threshold < load
    ensures var exact := c.base as real + r * (c.max as real - c.base as real);
            if r < 1.0 then exact - 0.5 < DynamicPrice(c, load) as real <= exact + 0.5
            else DynamicPrice(c, load) == c.max
  {
    var room := 1.0 - c.threshold;
    ScalePositive(r, room);
    DivideBack(r, room);
    assert (load - c.threshold) / room == r;
    assert (c.max - c.base) as real == c.max as real - c.base as real;
    if r < 1.0 { RoundNearest(c.base as real + r * (c.max - c.base) as real); } else { BlendEnds(c); }
  }

  /** A threshold of 1 makes every quote the maximum, one above 1 makes it the base. */
  lemma {:induction false} ThresholdPastFull(c: Config, load: real)
    requires c.threshold >= 1.0 && load > c.threshold
    ensures DynamicPrice(c, load) == if c.threshold == 1.0 then c.max else c.base
  {
    if c.threshold > 1.0 { DivideNegative(load - c.threshold, 1.0 - c.threshold); }
    BlendEnds(c);
  }

  lemma {:induction false} ScalePositive(r: real, d: real)
    requires r > 0.0 && d > 0.0
    ensures r * d > 0.0
  {}

  /** Two and a half percent off for each payment made, up to half, to the nearest unit, but never below base. */
  lemma {:induction false} DiscountPerPayment(c: Config, price: int, paid: nat)
    ensures var off := if paid <= 20 then 25 * paid else 500;
            var exact, q := price * (1000 - off), Discounted(c, price, TrustScore(paid));
            q >= c.base && (if q > c.base then exact - 500 < 1000 * q <= exact + 500 else exact < 1000 * c.base + 500)
  {
    var score := TrustScore(paid);
    RoundNearest(price as real * Factor(score));
    ScaledFactor(price, score);
  }

  lemma {:induction false} ScaledFactor(price: int, score: nat)
    ensures price as real * Factor(score) * 1000.0 == (price * (1000 - 5 * score)) as real
  {
    assert Factor(score) * 1000.0 == (1000 - 5 * score) as real;
    assert price as real * (1000 - 5 * score) as real == (price * (1000 - 5 * score)) as real;
    Reassociate(price as real, Factor(score), 1000.0);
  }

  lemma {:induction false} Reassociate(a: real, b: real, d: real)
    ensures a * b * d == a * (b * d)
  {}

  /** Only above the threshold is a request quoted: the price of the load, less the discount of the payments made. */
  lemma {:induction false} QuoteExactly(c: Config, load: real, paid: nat)
    ensures Quote(c, load, paid).Some? <==> load > c.threshold
    ensures load > c.threshold ==>
              var off := if paid <= 20 then 25 * paid else 500;
              var exact, q := DynamicPrice(c, load) * (1000 - off), Quote(c, load, paid).value;
              q >= c.base && (if q > c.base then exact - 500 < 1000 * q <= exact + 500 else exact < 1000 * c.base + 500)
  {
    if load > c.threshold { DiscountPerPayment(c, DynamicPrice(c, load), paid); }
  }

  /** Quotes stay within max for every load exactly when base does not exceed it. */
  lemma {:induction false} WithinMaxExactly(c: Config)
    ensures (forall load: real, paid: nat :: c.threshold < load ==> Quote(c, load, paid).value <= c.max)
            <==> c.base <= c.max
  {
    if c.base <= c.max {
      forall load: real, paid: nat | c.threshold < load ensures Quote(c, load, paid).value <= c.max {
        QuoteBounds(c, load, load, paid, paid);
      }
    } else {
      assert Quote(c, c.threshold + 1.0, 0).value >= c.base;
    }
  }
}
