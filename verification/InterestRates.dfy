/**
 The usage curves that turn a borrow market's usage ratio into an interest rate.
 */
module InterestRates {
  import opened Arith
  import opened FixedPoint
  import opened BinaryExponential

  /** A constructor may return a curve, reject its parameters, or abort. */
  datatype Construction<T> = Curve(curve: T) | Rejected | Aborted

  /** `floor(a * b)`: what `Mul` returns whenever it does not abort. */
  function Product(a: Decimal, b: Decimal): (r: nat) {
    MulNat(a, b);
    a * b / TWO_128
  }

  lemma ProductIsMul(a: Decimal, b: Decimal)
    ensures Mul(a, b).Some? ==> Mul(a, b).value == Product(a, b)
  {
    MulIsFloor(a, b);
  }

  lemma ProductMonotone(a: Decimal, b: Decimal, c: Decimal, d: Decimal)
    requires a <= b && c <= d
    ensures Product(a, c) <= Product(b, d)
  {
    MulMono(a, b, c);
    MulMono(c, d, b);
    DivMono(a * c, b * d, TWO_128);
  }

  /** A factor of at most one does not enlarge. */
  lemma ProductOfRatio(a: Decimal, u: Decimal)
    requires u <= ONE
    ensures Product(a, u) <= a
  {
    MulMono(u, TWO_128, a);
    DivAtMost(a * u, TWO_128, a);
  }

  /** Rounding the parts of a rate separately never overtakes the whole. */
  lemma ProductSuperadditive(a: Decimal, b: Decimal, u: Decimal)
    requires a <= b
    ensures Product(a, u) + Product(b - a, u) <= Product(b, u)
  {
    MulNat(a, u);
    MulNat(b - a, u);
    DivSum(a * u, (b - a) * u, TWO_128);
    assert a * u + (b - a) * u == b * u;
  }

  lemma MulOfRatioSucceeds(a: Decimal, u: Decimal)
    requires u <= ONE && a < TWO_384
    ensures Mul(a, u).Some?
  {
    MulMono(u, TWO_128, a);
    MulSmall(a, u);
  }

  // ---- Linear ----

  datatype Linear = Linear(base: Decimal, top: Decimal)

  function LinearNew(base: Decimal, top: Decimal): (r: Option<Linear>) {
    if base <= top then Some(Linear(base, top)) else None
  }

  function LinearAt(c: Linear, usage: Decimal): (r: Option<Decimal>)
    requires c.base <= c.top
  {
    var m := Mul(usage, c.top - c.base);
    if m.None? then None else Add(m.value, c.base)
  }

  /** Over `[0, 1]` the line is nondecreasing and stays between its ends. */
  lemma LinearMonotone(base: Decimal, top: Decimal, u: Decimal, v: Decimal)
    requires LinearNew(base, top).Some? && u <= v <= ONE
    requires LinearAt(LinearNew(base, top).value, u).Some? && LinearAt(LinearNew(base, top).value, v).Some?
    ensures var c := LinearNew(base, top).value;
            base <= LinearAt(c, u).value <= LinearAt(c, v).value <= top
  {
    hide Mul, Product;
    var c := LinearNew(base, top).value;
    ProductIsMul(u, c.top - c.base);
    ProductIsMul(v, c.top - c.base);
    ProductMonotone(u, v, c.top - c.base, c.top - c.base);
    ProductCommutes(v, c.top - c.base);
    ProductOfRatio(c.top - c.base, v);
  }

  lemma ProductCommutes(a: Decimal, b: Decimal)
    ensures Product(a, b) == Product(b, a)
  {}

  // ---- Piecewise ----

  datatype Piecewise = Piecewise(base: Decimal, optimal: Decimal, rate1: Decimal, rate2: Decimal,
                                 iNegativeRate2B: Decimal)

  function PiecewiseNew(base: Decimal, optimal: Decimal, rate1: Decimal, rate2: Decimal)
    : (r: Construction<Piecewise>)
  {
    if optimal > ONE then Rejected
    else if rate1 > rate2 then Rejected
    else
      var m := Mul(optimal, rate2 - rate1);
      if m.None? then Aborted
      else if base > m.value then Aborted
      else Curve(Piecewise(base, optimal, rate1, rate2, m.value - base))
  }

  function PiecewiseAt(c: Piecewise, usage: Decimal): (r: Option<Decimal>) {
    if usage > ONE then None
    else if usage < c.optimal then
      var m := Mul(c.rate1, usage);
      if m.None? then None else Add(m.value, c.base)
    else
      var m := Mul(c.rate2, usage);
      if m.None? then None else Sub(m.value, c.iNegativeRate2B)
  }

  /** What every constructed curve satisfies. */
  ghost predicate PiecewiseConstructed(c: Piecewise) {
    PiecewiseNew(c.base, c.optimal, c.rate1, c.rate2) == Curve(c)
  }

  lemma PiecewiseIntercept(c: Piecewise)
    requires PiecewiseConstructed(c)
    ensures c.optimal <= ONE && c.rate1 <= c.rate2
    ensures c.iNegativeRate2B + c.base == Product(c.rate2 - c.rate1, c.optimal)
  {
    hide Mul, Product;
    ProductIsMul(c.optimal, c.rate2 - c.rate1);
    ProductCommutes(c.optimal, c.rate2 - c.rate1);
  }

  /** Past the kink the source's subtraction never underflows. */
  lemma PiecewiseNoUnderflow(c: Piecewise, u: Decimal)
    requires PiecewiseConstructed(c) && c.optimal <= u <= ONE && Mul(c.rate2, u).Some?
    ensures PiecewiseAt(c, u).Some?
    ensures PiecewiseAt(c, u).value == Product(c.rate2, u) - c.iNegativeRate2B
  {
    hide Mul, Product;
    PiecewiseIntercept(c);
    ProductIsMul(c.rate2, u);
    ProductMonotone(c.rate2 - c.rate1, c.rate2, c.optimal, u);
  }

  /** The curve is nondecreasing over `[0, 1]`, also across the kink, although
      each of its three products is rounded on its own. */
  lemma PiecewiseMonotone(c: Piecewise, u: Decimal, v: Decimal)
    requires PiecewiseConstructed(c) && u <= v <= ONE
    requires PiecewiseAt(c, u).Some? && PiecewiseAt(c, v).Some?
    ensures PiecewiseAt(c, u).value <= PiecewiseAt(c, v).value
  {
    hide Mul, Product;
    PiecewiseIntercept(c);
    ProductIsMul(c.rate1, u);
    ProductIsMul(c.rate1, v);
    ProductIsMul(c.rate2, u);
    ProductIsMul(c.rate2, v);
    if v < c.optimal {
      ProductMonotone(c.rate1, c.rate1, u, v);
    } else if c.optimal <= u {
      ProductMonotone(c.rate2, c.rate2, u, v);
    } else {
      ProductMonotone(c.rate1, c.rate1, u, c.optimal);
      ProductSuperadditive(c.rate1, c.rate2, c.optimal);
      ProductMonotone(c.rate2, c.rate2, c.optimal, v);
    }
  }

  /** With rates that fit 256 whole bits nothing aborts on `[0, 1]`, and the
      curve starts at its base. */
  lemma PiecewiseTotal(c: Piecewise, u: Decimal)
    requires PiecewiseConstructed(c) && u <= ONE && c.rate2 < TWO_384
    ensures PiecewiseAt(c, u).Some?
    ensures u == 0 ==> PiecewiseAt(c, u).value == c.base
  {
    hide Mul, Product;
    PiecewiseIntercept(c);
    MulOfRatioSucceeds(c.rate1, u);
    MulOfRatioSucceeds(c.rate2, u);
    ProductIsMul(c.rate1, u);
    ProductOfRatio(c.rate1, u);
    ProductOfRatio(c.rate2 - c.rate1, c.optimal);
    if c.optimal <= u {
      PiecewiseNoUnderflow(c, u);
    }
    ProductAtZero(c.rate1);
    ProductAtZero(c.rate2);
    ProductAtZero(c.rate2 - c.rate1);
  }

  lemma ProductAtZero(a: Decimal)
    ensures Product(a, 0) == 0
  {}

  // ---- Exponential ----

  datatype Exponential2 = Exponential2(base: Decimal, top: Decimal, eccentricity: Decimal, iFactor: Decimal)

  function Exponential2New(base: Decimal, top: Decimal, eccentricity: Decimal)
    : (r: Construction<Exponential2>)
  {
    if base > top then Rejected
    else if eccentricity > 24 * TWO_128 || eccentricity == 0 then Rejected
    else
      var growth := Growth(eccentricity);
      if growth.None? then Aborted else
        var factor := Div(top - base, growth.value);
        if factor.None? then Aborted
        else Curve(Exponential2(base, top, eccentricity, factor.value))
  }

  /** `2^x - 1`. */
  function Growth(x: Decimal): (r: Option<Decimal>) {
    var p := Pow2(x);
    if p.None? then None else Sub(p.value, ONE)
  }

  function Exponential2At(c: Exponential2, usage: Decimal): (r: Option<Decimal>) {
    if usage > ONE then None else
      var x := Mul(c.eccentricity, usage);
      if x.None? then None else
        var growth := Growth(x.value);
        if growth.None? then None else
          var m := Mul(c.iFactor, growth.value);
          if m.None? then None else Add(c.base, m.value)
  }

  ghost predicate Exponential2Constructed(c: Exponential2) {
    Exponential2New(c.base, c.top, c.eccentricity) == Curve(c)
  }

  lemma WholeBelow25(x: Decimal)
    requires x <= 24 * TWO_128
    ensures Whole(x) < 384
  {}

  /** Growth starts at zero and is nondecreasing. */
  lemma GrowthMonotone(x: Decimal, y: Decimal)
    requires x <= y <= 24 * TWO_128
    ensures Growth(x).Some? && Growth(y).Some? && Growth(x).value <= Growth(y).value
    ensures Growth(0) == Some(0)
  {
    WholeBelow25(y);
    WholeBelow25(0);
    WholeBelow25(x);
    hide Pow2, Whole;
    Pow2Monotone(x, y);
    Pow2Monotone(0, x);
    Pow2AtZero();
  }

  /** Only the smallest positive eccentricity has no growth at all. */
  lemma GrowthPositive(x: Decimal)
    requires x <= 24 * TWO_128
    ensures Growth(x).Some?
    ensures Growth(x).value == 0 <==> x <= 1
  {
    GrowthMonotone(x, x);
    if x >= 2 {
      GrowthMonotone(2, x);
      GrowthAtTwo();
    } else {
      GrowthMonotone(x, 1);
      GrowthAtOne();
    }
  }

  lemma GrowthAtOne()
    ensures Growth(1) == Some(0)
  {
    Pow2BelowOne(1);
    hide Pow2, Pow2Frac;
    assert Pow2Frac(1) == Pow2Frac(0) by {
      SameNumerator();
    }
    Pow2FracAtZero();
  }

  lemma SameNumerator()
    ensures Pow2Frac(1) == Pow2Frac(0)
  {
    assert Numerator(1) == Numerator(0);
  }

  lemma GrowthAtTwo()
    ensures Growth(2).Some? && Growth(2).value > 0
  {
    Pow2BelowOne(2);
    hide Pow2, Pow2Frac;
    Pow2FracAtTwo();
  }

  lemma Pow2FracAtTwo()
    ensures Pow2Frac(2) > TWO_128
  {
    assert Numerator(2) == 1;
    TaylorStart(1);
    TaylorUnfold(1, 1);
    assert NextTerm(TWO_128, 1, 1) == 1;
    hide Taylor, NextTerm;
    TaylorSumGrows(1, 1, MAX_ITERATIONS);
  }

  /** The constructor aborts exactly on the smallest positive eccentricity. */
  lemma Exponential2Aborts(base: Decimal, top: Decimal, eccentricity: Decimal)
    ensures Exponential2New(base, top, eccentricity).Aborted? <==> base <= top && eccentricity == 1
  {
    if eccentricity <= 24 * TWO_128 {
      hide Growth, Div;
      GrowthPositive(eccentricity);
    }
  }

  /** The argument of the power never leaves the constructor's range. */
  lemma ScaledUsage(c: Exponential2, u: Decimal)
    requires Exponential2Constructed(c) && u <= ONE
    ensures c.eccentricity <= 24 * TWO_128
    ensures Mul(c.eccentricity, u) == Some(Product(c.eccentricity, u))
    ensures Product(c.eccentricity, u) <= c.eccentricity
  {
    MulOfRatioSucceeds(c.eccentricity, u);
    ProductIsMul(c.eccentricity, u);
    ProductOfRatio(c.eccentricity, u);
  }

  /** The factor times the largest growth is at most the whole span. */
  lemma FactorFits(c: Exponential2, growth: Decimal)
    requires Exponential2Constructed(c)
    requires Growth(c.eccentricity).Some? && growth <= Growth(c.eccentricity).value
    ensures c.base <= c.top
    ensures c.iFactor * growth <= (c.top - c.base) * TWO_128
    ensures Product(c.iFactor, growth) <= c.top - c.base
  {
    var largest := Growth(c.eccentricity).value;
    hide Growth, Div;
    DivAtMostQuotient(c.top - c.base, largest);
    MulMono(growth, largest, c.iFactor);
    MulNat(c.iFactor, growth);
    DivAtMost(c.iFactor * growth, TWO_128, c.top - c.base);
  }

  /** Wherever it returns, the curve is nondecreasing and stays in `[base, top]`. */
  lemma Exponential2Monotone(c: Exponential2, u: Decimal, v: Decimal)
    requires Exponential2Constructed(c) && u <= v <= ONE
    requires Exponential2At(c, u).Some? && Exponential2At(c, v).Some?
    ensures c.base <= Exponential2At(c, u).value <= Exponential2At(c, v).value <= c.top
  {
    hide Mul, Growth, Product;
    ScaledUsage(c, u);
    ScaledUsage(c, v);
    ProductMonotone(c.eccentricity, c.eccentricity, u, v);
    var x, y := Product(c.eccentricity, u), Product(c.eccentricity, v);
    GrowthMonotone(x, y);
    GrowthMonotone(y, c.eccentricity);
    ProductMonotone(c.iFactor, c.iFactor, Growth(x).value, Growth(y).value);
    ProductIsMul(c.iFactor, Growth(x).value);
    ProductIsMul(c.iFactor, Growth(y).value);
    FactorFits(c, Growth(y).value);
  }

  /** It starts exactly at `base`, and returns everywhere on `[0, 1]` when the
      span fits 256 whole bits. */
  lemma Exponential2Total(c: Exponential2, u: Decimal)
    requires Exponential2Constructed(c) && u <= ONE && c.top - c.base < TWO_384
    ensures Exponential2At(c, u).Some?
    ensures u == 0 ==> Exponential2At(c, u).value == c.base
  {
    hide Mul, Growth, Product;
    ScaledUsage(c, u);
    var x := Product(c.eccentricity, u);
    GrowthMonotone(0, x);
    GrowthMonotone(x, c.eccentricity);
    FactorFits(c, Growth(x).value);
    MulSmallSpan(c.iFactor, Growth(x).value, c.top - c.base);
    ProductIsMul(c.iFactor, Growth(x).value);
    ProductAtZero(c.eccentricity);
    ProductAtZero(c.iFactor);
  }

  lemma MulSmallSpan(a: Decimal, b: Decimal, span: nat)
    requires span < TWO_384 && a * b <= span * TWO_128
    ensures Mul(a, b).Some?
  {
    MulNat(a, b);
    MulSmall(a, b);
  }
}
