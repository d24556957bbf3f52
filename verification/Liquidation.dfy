/**
 How much collateral a liquidator may take, and whether taking it at the lowest
 acceptable price makes the position sound again. Prices, ratios and the spread
 are exact fractions; the ceilings are those of the program.
 */
module Liquidation {
  import opened Arith
  import opened BorrowLedger
  import opened BorrowSteps

  datatype Fraction = Fraction(num: nat, den: nat)

  /** `price` is the value of a unit of collateral in the borrow asset, `mcr` the
      maintenance ratio, `keep` one minus the liquidation spread. */
  datatype Terms = Terms(price: Fraction, mcr: Fraction, keep: Fraction)

  ghost predicate ValidTerms(t: Terms) {
    && t.price.num > 0 && t.price.den > 0 && t.mcr.den > 0 && t.keep.den > 0
    && 0 < t.keep.num <= t.keep.den
    // The maintenance ratio exceeds one even after the spread.
    && t.mcr.num * t.keep.num > t.mcr.den * t.keep.den
  }

  function CeilDiv(a: nat, b: nat): (r: nat)
    requires b > 0
  {
    (a + b - 1) / b
  }

  /** The ceiling is the least integer whose multiple reaches the dividend. */
  lemma CeilDivLeast(a: nat, b: nat, n: nat)
    requires b > 0
    ensures CeilDiv(a, b) <= n <==> a <= n * b
  {
    var q := CeilDiv(a, b);
    DivBounds(a + b - 1, b);
    assert q * b <= a + b - 1 < q * b + b;
    if q <= n {
      MulMono(q, n, b);
    } else {
      MulMono(n + 1, q, b);
      assert (n + 1) * b == n * b + b;
    }
  }

  /** The collateral ratio reaches the fraction `f`. */
  predicate RatioAtLeast(collateral: nat, liability: nat, price: Fraction, f: Fraction) {
    collateral * price.num * f.den >= f.num * liability * price.den
  }

  /** Missing collateral value over the value regained with each unit sold, as the
      dividend and the divisor of one quotient. */
  function Shortfall(collateral: nat, liability: nat, t: Terms): (r: int) {
    (t.mcr.num * liability * t.price.den - collateral * t.price.num * t.mcr.den) * t.keep.den
  }

  function Gain(t: Terms): (r: int) {
    t.price.num * (t.mcr.num * t.keep.num - t.mcr.den * t.keep.den)
  }

  lemma GainPositive(t: Terms)
    requires ValidTerms(t)
    ensures Gain(t) > 0
  {
    MulMono(1, t.mcr.num * t.keep.num - t.mcr.den * t.keep.den, t.price.num);
  }

  lemma RatioPositive(t: Terms)
    requires ValidTerms(t)
    ensures t.mcr.num > 0
  {
    MulNat(t.mcr.den, t.keep.den);
    ScaleLess(0, t.mcr.num, t.keep.num);
  }

  lemma ShortfallPositive(collateral: nat, liability: nat, t: Terms)
    requires ValidTerms(t) && !RatioAtLeast(collateral, liability, t.price, t.mcr)
    ensures Shortfall(collateral, liability, t) > 0
  {
    MulMono(1, t.mcr.num * liability * t.price.den - collateral * t.price.num * t.mcr.den, t.keep.den);
  }

  function Liquidatable(collateral: nat, liability: nat, t: Terms): (r: nat)
    requires ValidTerms(t)
  {
    if liability == 0 then 0
    else if !(collateral * t.price.num > liability * t.price.den) then collateral
    else if RatioAtLeast(collateral, liability, t.price, t.mcr) then 0
    else
      GainPositive(t);
      ShortfallPositive(collateral, liability, t);
      Min(CeilDiv(Shortfall(collateral, liability, t), Gain(t)), collateral)
  }

  /** The lowest acceptable price of `amount` of collateral. */
  function LeastPrice(amount: nat, t: Terms): (r: nat)
    requires ValidTerms(t)
  {
    PricePositive(t);
    Max(1, CeilDiv(amount * (t.price.num * t.keep.num), t.price.den * t.keep.den))
  }

  lemma PricePositive(t: Terms)
    requires ValidTerms(t)
    ensures t.price.den * t.keep.den > 0 && t.price.num * t.keep.num > 0
  {
    MulMono(1, t.price.den, t.keep.den);
    MulMono(1, t.price.num, t.keep.num);
  }

  /** `x p (m k - 1) >= m l - c p` rearranged, with all fractions cleared: the value
      kept, `c - x`, reaches `m` times the liability left, `l - x p k`. */
  lemma EnoughSold(c: nat, l: nat, x: nat, t: Terms)
    requires Shortfall(c, l, t) <= x * Gain(t)
    ensures (l * t.price.den * t.keep.den - x * (t.price.num * t.keep.num)) * t.mcr.num
            <= (c - x) * t.price.num * t.mcr.den * t.keep.den
  {
    var pn, pd, mn, md, kn, kd := t.price.num, t.price.den, t.mcr.num, t.mcr.den, t.keep.num, t.keep.den;
    assert Shortfall(c, l, t) == mn * (l * pd * kd) - c * pn * md * kd by {
      assert (mn * l * pd - c * pn * md) * kd == mn * l * pd * kd - c * pn * md * kd;
      assert mn * l * pd * kd == mn * (l * pd * kd);
    }
    assert x * Gain(t) == mn * (x * (pn * kn)) - x * pn * md * kd by {
      GainExpands(x, pn, mn, kn, md, kd);
    }
    assert (l * pd * kd - x * (pn * kn)) * mn == mn * (l * pd * kd) - mn * (x * (pn * kn));
    assert (c - x) * pn * md * kd == c * pn * md * kd - x * pn * md * kd by {
      Distribute(c, x, pn, md, kd);
    }
  }

  lemma GainExpands(x: int, pn: int, mn: int, kn: int, md: int, kd: int)
    ensures x * (pn * (mn * kn - md * kd)) == mn * (x * (pn * kn)) - x * pn * md * kd
  {
    assert pn * (mn * kn - md * kd) == pn * (mn * kn) - pn * (md * kd);
    assert x * (pn * (mn * kn) - pn * (md * kd)) == x * (pn * (mn * kn)) - x * (pn * (md * kd));
    assert x * (pn * (mn * kn)) == mn * (x * (pn * kn));
    assert x * (pn * (md * kd)) == x * pn * md * kd;
  }

  lemma Distribute(c: int, x: int, a: int, b: int, d: int)
    ensures (c - x) * a * b * d == c * a * b * d - x * a * b * d
  {
    assert (c - x) * a == c * a - x * a;
    assert (c * a - x * a) * b == c * a * b - x * a * b;
    assert (c * a * b - x * a * b) * d == c * a * b * d - x * a * b * d;
  }

  /** What is left after selling `x` for `paid`. */
  predicate Restored(c: nat, l: nat, x: nat, paid: nat, t: Terms)
    requires x <= c
  {
    paid >= l || RatioAtLeast(c - x, l - paid, t.price, t.mcr)
  }

  lemma UnclampedRestores(c: nat, l: nat, x: nat, t: Terms)
    requires ValidTerms(t) && x <= c && Shortfall(c, l, t) <= x * Gain(t)
    ensures Restored(c, l, x, LeastPrice(x, t), t)
  {
    var paid := LeastPrice(x, t);
    PricePositive(t);
    CeilDivLeast(x * (t.price.num * t.keep.num), t.price.den * t.keep.den, paid);
    if paid < l {
      EnoughSold(c, l, x, t);
      hide LeastPrice, CeilDiv, Shortfall, Gain;
      LiabilityLeft(l, paid, t.price.den, t.keep.den, x * (t.price.num * t.keep.num));
      MulMono((l - paid) * t.price.den * t.keep.den,
              l * t.price.den * t.keep.den - x * (t.price.num * t.keep.num), t.mcr.num);
      Scaled(t.mcr.num, l - paid, t.price.den, t.keep.den, (c - x) * t.price.num * t.mcr.den);
    }
  }

  lemma LiabilityLeft(l: int, paid: int, pd: int, kd: int, v: int)
    requires v <= paid * (pd * kd)
    ensures (l - paid) * pd * kd <= l * pd * kd - v
  {
    assert (l - paid) * pd == l * pd - paid * pd;
    assert (l * pd - paid * pd) * kd == l * pd * kd - paid * pd * kd;
    assert paid * pd * kd == paid * (pd * kd);
  }

  lemma Scaled(mn: int, l: int, pd: int, kd: nat, v: int)
    requires kd > 0 && (l * pd * kd) * mn <= v * kd
    ensures mn * l * pd <= v
  {
    assert (l * pd * kd) * mn == (mn * l * pd) * kd;
    ScaleLess(v, mn * l * pd, kd);
  }

  /** The whole collateral suffices for the quotient exactly when, at the lowest price,
      it is worth the liability. */
  lemma ClampedExactly(c: nat, l: nat, t: Terms)
    requires ValidTerms(t)
    ensures Shortfall(c, l, t) <= c * Gain(t) <==>
            l * (t.price.den * t.keep.den) <= c * (t.price.num * t.keep.num)
  {
    var pn, pd, mn, md, kn, kd := t.price.num, t.price.den, t.mcr.num, t.mcr.den, t.keep.num, t.keep.den;
    RatioPositive(t);
    assert Shortfall(c, l, t) == mn * (l * (pd * kd)) - c * pn * md * kd by { ShortExpands(c, l, pn, pd, mn, md, kd); }
    assert c * Gain(t) == mn * (c * (pn * kn)) - c * pn * md * kd by { GainExpands(c, pn, mn, kn, md, kd); }
    hide Shortfall, Gain;
    Compare(c * (pn * kn), l * (pd * kd), mn);
  }

  lemma ShortExpands(c: int, l: int, pn: int, pd: int, mn: int, md: int, kd: int)
    ensures (mn * l * pd - c * pn * md) * kd == mn * (l * (pd * kd)) - c * pn * md * kd
  {
    assert (mn * l * pd - c * pn * md) * kd == mn * l * pd * kd - c * pn * md * kd;
    assert mn * l * pd * kd == mn * (l * (pd * kd));
  }

  lemma Compare(x: int, y: int, m: nat)
    requires m > 0
    ensures m * y <= m * x <==> y <= x
  {
    ScaleLess(x, y, m);
  }

  /** Selling all the collateral restores the position exactly when it pays it off. */
  lemma SellingAll(c: nat, l: nat, t: Terms)
    requires ValidTerms(t) && l > 0
    ensures Restored(c, l, c, LeastPrice(c, t), t) <==> l <= LeastPrice(c, t)
  {
    var paid := LeastPrice(c, t);
    if paid < l {
      RatioPositive(t);
      MulMono(1, t.mcr.num, l - paid);
      MulMono(1, t.mcr.num * (l - paid), t.price.den);
      assert (c - c) * t.price.num * t.mcr.den == 0;
    }
  }

  /** A liquidator who takes all that may be taken of a position below the maintenance
      ratio, at the lowest price, leaves it without liability or at the maintenance
      ratio, exactly when all of its collateral would fetch the liability at that price. */
  lemma LiquidationRestores(c: nat, l: nat, t: Terms)
    requires ValidTerms(t) && l > 0 && !RatioAtLeast(c, l, t.price, t.mcr)
    ensures Liquidatable(c, l, t) <= c
    ensures var x := Liquidatable(c, l, t);
            Restored(c, l, x, LeastPrice(x, t), t) <==> l <= LeastPrice(c, t)
  {
    PricePositive(t);
    GainPositive(t);
    ShortfallPositive(c, l, t);
    CeilDivLeast(c * (t.price.num * t.keep.num), t.price.den * t.keep.den, l - 1);
    ScaleLess(l - 1, l, t.price.den * t.keep.den);
    var q := CeilDiv(Shortfall(c, l, t), Gain(t));
    SellingAll(c, l, t);
    if c * t.price.num > l * t.price.den {
      CeilDivLeast(Shortfall(c, l, t), Gain(t), c);
      ClampedExactly(c, l, t);
      if q <= c {
        CeilDivLeast(Shortfall(c, l, t), Gain(t), q);
        UnclampedRestores(c, l, q, t);
      }
    }
  }

  /** In particular it does for every position whose ratio is above what the spread
      takes away. */
  lemma LiquidationRestoresAbove(c: nat, l: nat, t: Terms)
    requires ValidTerms(t) && l > 0 && !RatioAtLeast(c, l, t.price, t.mcr)
    requires c * t.price.num * t.keep.num > l * t.price.den * t.keep.den
    ensures Liquidatable(c, l, t) <= c
    ensures var x := Liquidatable(c, l, t);
            Restored(c, l, x, LeastPrice(x, t), t)
  {
    hide Liquidatable, RatioAtLeast, CeilDiv;
    PricePositive(t);
    CeilDivLeast(c * (t.price.num * t.keep.num), t.price.den * t.keep.den, l - 1);
    ScaleLess(l - 1, l, t.price.den * t.keep.den);
    MulAssoc(c, t.price.num, t.keep.num);
    MulAssoc(l, t.price.den, t.keep.den);
    LiquidationRestores(c, l, t);
    hide ValidTerms, Restored;
  }

  /** The payment is not cut short to keep the principal at its minimum. */
  predicate NotHeldBack(p: BorrowPosition, paid: nat, minimum: nat) {
    var rest := Monus(paid, p.fees + p.interest.total);
    !(0 < Monus(p.principal, rest) < minimum)
  }

  /** The same of the position itself, whose liability the waterfall reduces. */
  lemma PositionRestored(p: BorrowPosition, minimum: nat, t: Terms)
    requires ValidTerms(t) && p.inFlight == 0
    requires Liability(p) > 0 && !RatioAtLeast(p.collateral, Liability(p), t.price, t.mcr)
    requires var x := Liquidatable(p.collateral, Liability(p), t);
             NotHeldBack(p, LeastPrice(x, t), minimum)
    ensures Liquidatable(p.collateral, Liability(p), t) <= p.collateral
    ensures var x := Liquidatable(p.collateral, Liability(p), t);
            var r := Split(p, LeastPrice(x, t), minimum);
            && r.Some? && r.value.toFees <= p.fees && r.value.toInterest <= p.interest.total
            && r.value.toPrincipal <= p.principal
            && var left := Liability(Reduced(p, r.value));
               (left == 0 || RatioAtLeast(p.collateral - x, left, t.price, t.mcr)) <==>
               Liability(p) <= LeastPrice(p.collateral, t)
  {
    var c, l := p.collateral, Liability(p);
    LiquidationRestores(c, l, t);
    var x := Liquidatable(c, l, t);
    var paid := LeastPrice(x, t);
    hide Liquidatable, LeastPrice, RatioAtLeast;
    LiabilityReduced(p, paid, minimum);
    SplitIsExact(p, paid, minimum);
    var r := Split(p, paid, minimum).value;
    assert paid - r.toRefund == Min(paid, l);
    hide Split;
  }
}
