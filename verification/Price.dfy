/**
 Oracle prices with confidence bands, valuations, and the ratio between them.
 */
module Price {
  import opened Arith
  import opened FixedPoint

  datatype PythPrice = PythPrice(price: int, conf: nat, expo: int)

  datatype Price = Price(price: nat, confidence: nat, exponent: int)

  datatype PriceDataError = NegativePrice | ConfidenceIntervalTooLarge | ExponentOutOfBounds

  datatype PriceResult = Ok(price: Price) | Err(error: PriceDataError)

  const I32_MIN: int := -0x8000_0000
  const I32_MAX: int := 0x7fff_ffff

  function FromPythPrice(p: PythPrice, decimals: int): (r: PriceResult)
    ensures r.Ok? <==> 0 < p.price && p.conf < p.price && I32_MIN <= p.expo - decimals <= I32_MAX
    ensures r.Ok? ==> r.price.confidence < r.price.price
  {
    if p.price < 0 then Err(NegativePrice)
    else if p.conf >= p.price then Err(ConfidenceIntervalTooLarge)
    else if !(I32_MIN <= p.expo - decimals <= I32_MAX) then Err(ExponentOutOfBounds)
    else Ok(Price(p.price, p.conf, p.expo - decimals))
  }

  /** `coefficient * 10^exponent`. */
  datatype Valuation = Valuation(coefficient: nat, exponent: int)

  function Optimistic(amount: nat, p: Price): (v: Valuation) {
    MulNat(amount, p.price + p.confidence);
    Valuation(amount * (p.price + p.confidence), p.exponent)
  }

  function Pessimistic(amount: nat, p: Price): (v: Valuation)
    requires p.confidence < p.price
  {
    MulNat(amount, p.price - p.confidence);
    Valuation(amount * (p.price - p.confidence), p.exponent)
  }

  /** The ratio as the source computes it when its exact path succeeds; `None`
      stands for a zero divisor or for the logarithmic approximation. */
  function ExactRatio(a: Valuation, b: Valuation): (r: Option<Decimal>)
    requires a.coefficient < TWO_256 && b.coefficient < TWO_256
  {
    if b.coefficient == 0 then None
    else if !(I32_MIN <= a.exponent - b.exponent <= I32_MAX) then None
    else
      var scaled := MulPow10(a.coefficient * TWO_128, a.exponent - b.exponent);
      if scaled.None? then None else Div(scaled.value, b.coefficient * TWO_128)
  }

  lemma DivByCoefficient(x: Decimal, c: nat)
    requires 0 < c < TWO_256
    ensures c * TWO_128 < TWO_512 && Div(x, c * TWO_128) == Some(x / c)
  {
    var d: Decimal := c * TWO_128;
    assert QuotientFits(x, d) by {
      MulMono(1, c, TWO_128 * TWO_512);
    }
    hide Div;
    DivExact(x, d);
    DivCancel(x, c, TWO_128);
  }

  /** On the exact path the ratio never exceeds the true one. */
  lemma ExactRatioFloor(a: Valuation, b: Valuation)
    requires a.coefficient < TWO_256 && b.coefficient < TWO_256 && ExactRatio(a, b).Some?
    ensures b.coefficient > 0
    ensures var e := a.exponent - b.exponent;
            var r := ExactRatio(a, b).value;
            if e >= 0 then r * b.coefficient <= a.coefficient * TWO_128 * Pow(10, e)
            else r * b.coefficient * Pow(10, -e) <= a.coefficient * TWO_128
  {
    var e := a.exponent - b.exponent;
    var scaled := MulPow10(a.coefficient * TWO_128, e).value;
    MulPow10Scales(a.coefficient * TWO_128, e);
    hide MulPow10, Div, Pow;
    DivByCoefficient(scaled, b.coefficient);
    DivBounds(scaled, b.coefficient);
    if e < 0 {
      PowPositive(10, -e);
      DivBounds(a.coefficient * TWO_128, Pow(10, -e));
      MulMono(scaled / b.coefficient * b.coefficient, scaled, Pow(10, -e));
    }
  }

  // ---- True ratios ----

  /** The value of `v` as a multiple of `10^unit`. */
  function InUnits(v: Valuation, unit: int): (r: nat)
    requires unit <= v.exponent
  {
    MulNat(v.coefficient, Pow(10, v.exponent - unit));
    v.coefficient * Pow(10, v.exponent - unit)
  }

  /** A power of ten fine enough to write both valuations in whole units. */
  function CommonUnit(a: Valuation, b: Valuation): int {
    Min(a.exponent, b.exponent)
  }

  /** The computed ratio never exceeds the ratio of the two valuations. */
  lemma RatioAtMostTrue(a: Valuation, b: Valuation)
    requires a.coefficient < TWO_256 && b.coefficient < TWO_256 && ExactRatio(a, b).Some?
    ensures b.coefficient > 0
    ensures var unit := CommonUnit(a, b);
            ExactRatio(a, b).value * InUnits(b, unit) <= TWO_128 * InUnits(a, unit)
  {
    ExactRatioFloor(a, b);
    assert Pow(10, 0) == 1;
    hide ExactRatio, Pow;
    var e := a.exponent - b.exponent;
    if e >= 0 {
      assert InUnits(b, b.exponent) == b.coefficient;
      Regroup(TWO_128, a.coefficient, Pow(10, e));
    } else {
      assert InUnits(a, a.exponent) == a.coefficient;
      MulAssoc(ExactRatio(a, b).value, b.coefficient, Pow(10, -e));
    }
  }

  /** One unit more would exceed it. */
  lemma RatioAboveTrue(a: Valuation, b: Valuation)
    requires a.coefficient < TWO_256 && b.coefficient < TWO_256 && ExactRatio(a, b).Some?
    ensures var e, r := a.exponent - b.exponent, ExactRatio(a, b).value;
            if e >= 0 then a.coefficient * TWO_128 * Pow(10, e) < (r + 1) * b.coefficient
            else a.coefficient * TWO_128 < (r + 1) * b.coefficient * Pow(10, -e)
  {
    hide MulPow10, Div, Pow;
    var e, n := a.exponent - b.exponent, a.coefficient * TWO_128;
    var scaled := MulPow10(n, e).value;
    MulPow10Scales(n, e);
    DivByCoefficient(scaled, b.coefficient);
    if e >= 0 {
      AboveQuotient(n * Pow(10, e), b.coefficient, 1);
    } else {
      AboveQuotient(n, b.coefficient, Pow(10, -e));
    }
  }

  /** Dividing first by `p` and then by `b` loses no more than dividing once. */
  lemma AboveQuotient(n: nat, b: nat, p: nat)
    requires b > 0 && p > 0
    ensures n < (n / p / b + 1) * b * p
  {
    DivBounds(n, p);
    DivBounds(n / p, b);
    MulMono(n / p + 1, (n / p / b + 1) * b, p);
  }

  /** So it is the floor of that ratio. */
  lemma RatioIsFloor(a: Valuation, b: Valuation)
    requires a.coefficient < TWO_256 && b.coefficient < TWO_256 && ExactRatio(a, b).Some?
    ensures var unit, r := CommonUnit(a, b), ExactRatio(a, b).value;
            r * InUnits(b, unit) <= TWO_128 * InUnits(a, unit) < (r + 1) * InUnits(b, unit)
  {
    RatioAtMostTrue(a, b);
    RatioAboveTrue(a, b);
    assert Pow(10, 0) == 1;
    hide ExactRatio, Pow;
    var e := a.exponent - b.exponent;
    if e >= 0 {
      assert InUnits(b, b.exponent) == b.coefficient;
      Regroup(TWO_128, a.coefficient, Pow(10, e));
    } else {
      assert InUnits(a, a.exponent) == a.coefficient;
      MulAssoc(ExactRatio(a, b).value + 1, b.coefficient, Pow(10, -e));
    }
  }

  lemma Regroup(t: int, c: int, p: int)
    ensures c * t * p == t * (c * p)
  {
    MulAssoc(t, c, p);
  }

  /** An actual price, the fraction `num / den`, that lies inside the band. */
  predicate InBand(num: nat, den: nat, p: Price) {
    den > 0 && (p.price - p.confidence) * den <= num <= (p.price + p.confidence) * den
  }

  datatype PricePair = PricePair(collateral: Price, borrow: Price)

  predicate ValidPair(pair: PricePair) {
    && pair.collateral.confidence < pair.collateral.price < TWO_128 / 2
    && pair.borrow.confidence < pair.borrow.price < TWO_128 / 2
  }

  lemma CoefficientFits(amount: nat, price: nat)
    requires amount < TWO_128 && price < TWO_128
    ensures amount * price < TWO_256
  {
    MulMono(amount, TWO_128, price);
    MulMono(price + 1, TWO_128, TWO_128);
  }

  /** The ratio the source compares with its minimum collateralization ratios. */
  function CollateralizationRatio(collateral: nat, liability: nat, pair: PricePair): (r: Option<Decimal>)
    requires ValidPair(pair) && collateral < TWO_128 && liability < TWO_128
  {
    if liability == 0 then None else
      CoefficientFits(collateral, pair.collateral.price - pair.collateral.confidence);
      CoefficientFits(liability, pair.borrow.price + pair.borrow.confidence);
      ExactRatio(Pessimistic(collateral, pair.collateral), Optimistic(liability, pair.borrow))
  }

  /** What `amount` is worth at the actual price `num / den`, times `den`, in
      multiples of `10^unit`. */
  function Worth(amount: nat, num: nat, p: Price, unit: int): (r: nat)
    requires unit <= p.exponent
  {
    MulNat(amount, num);
    InUnits(Valuation(amount * num, p.exponent), unit)
  }

  /** On the exact path a position is never shown as better collateralized than it
      is, whatever the actual prices `cNum / cDen` and `bNum / bDen` inside both
      bands are: computed ratio <= (worth of collateral) / (worth of liability). */
  lemma RatioIsPessimistic(collateral: nat, liability: nat, pair: PricePair,
                           cNum: nat, cDen: nat, bNum: nat, bDen: nat)
    requires ValidPair(pair) && collateral < TWO_128 && liability < TWO_128
    requires CollateralizationRatio(collateral, liability, pair).Some?
    requires InBand(cNum, cDen, pair.collateral) && InBand(bNum, bDen, pair.borrow)
    ensures var unit := Min(pair.collateral.exponent, pair.borrow.exponent);
            CollateralizationRatio(collateral, liability, pair).value
            * (Worth(liability, bNum, pair.borrow, unit) * cDen)
            <= TWO_128 * (Worth(collateral, cNum, pair.collateral, unit) * bDen)
  {
    var low, high := pair.collateral.price - pair.collateral.confidence, pair.borrow.price + pair.borrow.confidence;
    var unit := Min(pair.collateral.exponent, pair.borrow.exponent);
    CoefficientFits(collateral, low);
    CoefficientFits(liability, high);
    var a, b := Pessimistic(collateral, pair.collateral), Optimistic(liability, pair.borrow);
    RatioAtMostTrue(a, b);
    hide ExactRatio, InUnits;
    assert InUnits(a, unit) == Worth(collateral, low, pair.collateral, unit);
    assert InUnits(b, unit) == Worth(liability, high, pair.borrow, unit);
    WorthScales(collateral, low, cDen, cNum, pair.collateral, unit);
    WorthScalesUp(liability, high, bDen, bNum, pair.borrow, unit);
    hide Worth;
    Chain(ExactRatio(a, b).value, TWO_128,
          Worth(liability, high, pair.borrow, unit), Worth(collateral, low, pair.collateral, unit),
          Worth(liability, bNum, pair.borrow, unit), Worth(collateral, cNum, pair.collateral, unit), cDen, bDen);
  }

  /** From the band's lower edge to an actual price above it. */
  lemma WorthScales(amount: nat, low: nat, den: nat, num: nat, p: Price, unit: int)
    requires unit <= p.exponent && low * den <= num
    ensures Worth(amount, low, p, unit) * den <= Worth(amount, num, p, unit)
  {
    hide Pow;
    ScaledWorth(amount, low, den, Pow(10, p.exponent - unit));
    MulMono(low * den, num, amount);
    MulMono(amount * (low * den), amount * num, Pow(10, p.exponent - unit));
  }

  /** From an actual price to the band's upper edge above it. */
  lemma WorthScalesUp(amount: nat, high: nat, den: nat, num: nat, p: Price, unit: int)
    requires unit <= p.exponent && num <= high * den
    ensures Worth(amount, num, p, unit) <= Worth(amount, high, p, unit) * den
  {
    hide Pow;
    ScaledWorth(amount, high, den, Pow(10, p.exponent - unit));
    MulMono(num, high * den, amount);
    MulMono(amount * num, amount * (high * den), Pow(10, p.exponent - unit));
  }

  lemma ScaledWorth(amount: nat, price: nat, den: nat, scale: nat)
    ensures (amount * price) * scale * den == (amount * (price * den)) * scale
  {
    MulAssoc(amount * price, scale, den);
    MulAssoc(amount * price, den, scale);
    MulAssoc(amount, price, den);
  }

  lemma Chain(r: nat, t: nat, y: nat, x: nat, y': nat, x': nat, c: nat, b: nat)
    requires r * y <= t * x && y' <= y * b && x * c <= x'
    ensures r * (y' * c) <= t * (x' * b)
  {
    calc {
      r * (y' * c);
    ==  { MulAssoc(r, y', c); }
      r * y' * c;
    <=  { MulMono(y', y * b, r); MulMono(r * y', r * (y * b), c); }
      r * (y * b) * c;
    ==  { MulAssoc(r, y, b); MulAssoc(r * y, b, c); }
      r * y * (b * c);
    <=  { MulMono(r * y, t * x, b * c); }
      t * x * (b * c);
    ==  { MulAssoc(t, x, b * c); MulAssoc(x, c, b); }
      t * (x * c * b);
    <=  { MulMono(x * c, x', b); MulMono(x * c * b, x' * b, t); }
      t * (x' * b);
    }
  }

  // ---- Conversions ----

  /** One unit of the borrow asset in collateral, and one unit of collateral in
      the borrow asset. */
  function BorrowToCollateral(pair: PricePair): (r: Option<Decimal>)
    requires ValidPair(pair)
  {
    ExactRatio(Optimistic(1, pair.borrow), Pessimistic(1, pair.collateral))
  }

  function CollateralToBorrow(pair: PricePair): (r: Option<Decimal>)
    requires ValidPair(pair)
  {
    ExactRatio(Pessimistic(1, pair.collateral), Optimistic(1, pair.borrow))
  }

  /** Converting there and back never creates value. */
  lemma ConversionsNeverGain(pair: PricePair)
    requires ValidPair(pair)
    requires BorrowToCollateral(pair).Some? && CollateralToBorrow(pair).Some?
    ensures BorrowToCollateral(pair).value * CollateralToBorrow(pair).value <= TWO_256
  {
    var a, b := Optimistic(1, pair.borrow), Pessimistic(1, pair.collateral);
    var unit := CommonUnit(a, b);
    RatioAtMostTrue(a, b);
    RatioAtMostTrue(b, a);
    hide ExactRatio;
    InUnitsPositive(a, unit);
    InUnitsPositive(b, unit);
    hide InUnits;
    ThereAndBack(ExactRatio(a, b).value, ExactRatio(b, a).value, TWO_128, InUnits(a, unit), InUnits(b, unit));
  }

  lemma InUnitsPositive(v: Valuation, unit: int)
    requires v.coefficient > 0 && unit <= v.exponent
    ensures InUnits(v, unit) > 0
  {
    PowPositive(10, v.exponent - unit);
  }

  lemma ThereAndBack(r: nat, s: nat, t: nat, x: nat, y: nat)
    requires x > 0 && y > 0 && r * y <= t * x && s * x <= t * y
    ensures r * s <= t * t
  {
    var z := x * y;
    assert (r * s) * z <= (t * t) * z by {
      ScaleProduct(r, y, s, x);
      ScaleProduct(t, x, t, y);
      MulMono(r * y, t * x, s * x);
      MulMono(s * x, t * y, t * x);
    }
    assert z > 0;
    ScaleLess(t * t, r * s, z);
  }
}
