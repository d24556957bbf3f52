/**
 The amount of collateral that may be liquidated, and its lowest acceptable price, as
 the program computes them in decimals: every product, quotient and conversion is
 rounded. What the rounding can cost is bounded, and so is what it can take too much.
 */
module LiquidationRounding {
  import opened Arith
  import opened FixedPoint
  import opened Price

  /** `liquidatable_collateral`; `None` where it panics or a ratio has no exact value. */
  function LiquidatableCollateral(collateral: nat, liability: nat, pair: PricePair, mcr: Decimal, spread: Decimal)
    : (r: Option<nat>)
    requires ValidPair(pair) && collateral < TWO_128 && liability < TWO_128 && spread < ONE
  {
    if liability == 0 then Some(0)
    else
      var ratio := CollateralizationRatio(collateral, liability, pair);
      if ratio.None? then None
      else if ratio.value <= ONE then Some(collateral)
      else if ratio.value >= mcr then Some(0)
      else
        var sold := SoldAmount(collateral, liability, pair, mcr, spread);
        if sold.None? then None
        else
          var amount := ToU128Ceil(sold.value);
          Some(if amount.None? then collateral else Min(amount.value, collateral))
  }

  /** The quotient of the missing collateral and of what selling one unit regains. */
  function SoldAmount(collateral: nat, liability: nat, pair: PricePair, mcr: Decimal, spread: Decimal)
    : (r: Option<Decimal>)
    requires ValidPair(pair) && collateral < TWO_128 && liability < TWO_128 && spread < ONE
  {
    var converted := InCollateral(liability, pair);
    if converted.None? then None
    else
      var needed, regained := Mul(mcr, converted.value), Mul(mcr, ONE - spread);
      if needed.None? || regained.None? || needed.value < collateral * TWO_128 || regained.value <= ONE then None
      else Div(needed.value - collateral * TWO_128, regained.value - ONE)
  }

  function InCollateral(amount: nat, pair: PricePair): (r: Option<Decimal>)
    requires ValidPair(pair) && amount < TWO_128
  {
    CoefficientFits(amount, pair.borrow.price + pair.borrow.confidence);
    ExactRatio(Optimistic(amount, pair.borrow), Pessimistic(1, pair.collateral))
  }

  function InBorrow(amount: nat, pair: PricePair): (r: Option<Decimal>)
    requires ValidPair(pair) && amount < TWO_128
  {
    CoefficientFits(amount, pair.collateral.price - pair.collateral.confidence);
    ExactRatio(Pessimistic(amount, pair.collateral), Optimistic(1, pair.borrow))
  }

  /** The lowest amount a liquidator may offer for `amount` of collateral. */
  function LowestOffer(amount: nat, pair: PricePair, spread: Decimal): (r: Option<nat>)
    requires ValidPair(pair) && amount < TWO_128 && spread < ONE
  {
    var value := InBorrow(amount, pair);
    if value.None? || ToU128Ceil(value.value).None? then None
    else
      var least := Mul(value.value, ONE - spread);
      if least.None? || ToU128Ceil(least.value).None? then None
      else Some(Max(1, ToU128Ceil(least.value).value))
  }

  // ---- Values of a unit ----

  /** The smaller exponent of the two prices. */
  function Scale(pair: PricePair): int {
    Min(pair.collateral.exponent, pair.borrow.exponent)
  }

  /** What a unit of collateral and a unit of the borrow asset are valued at, in
      multiples of `10^Scale`. */
  function CollateralUnit(pair: PricePair): (r: nat)
    requires ValidPair(pair)
  {
    InUnits(Pessimistic(1, pair.collateral), Scale(pair))
  }

  function BorrowUnit(pair: PricePair): (r: nat)
    requires ValidPair(pair)
  {
    InUnits(Optimistic(1, pair.borrow), Scale(pair))
  }

  lemma UnitsPositive(pair: PricePair)
    requires ValidPair(pair)
    ensures CollateralUnit(pair) > 0 && BorrowUnit(pair) > 0
  {
    InUnitsPositive(Pessimistic(1, pair.collateral), Scale(pair));
    InUnitsPositive(Optimistic(1, pair.borrow), Scale(pair));
  }

  lemma ValueOf(amount: nat, price: nat, scale: nat)
    ensures (amount * price) * scale == amount * ((1 * price) * scale)
  {
    MulAssoc(amount, price, scale);
  }

  lemma ConvertedBracket(amount: nat, pair: PricePair)
    requires ValidPair(pair) && amount < TWO_128 && InCollateral(amount, pair).Some?
    ensures var r := InCollateral(amount, pair).value;
            r * CollateralUnit(pair) <= TWO_128 * (amount * BorrowUnit(pair)) < (r + 1) * CollateralUnit(pair)
  {
    var high := pair.borrow.price + pair.borrow.confidence;
    CoefficientFits(amount, high);
    RatioIsFloor(Optimistic(amount, pair.borrow), Pessimistic(1, pair.collateral));
    hide ExactRatio, Pow;
    ValueOf(amount, high, Pow(10, pair.borrow.exponent - Scale(pair)));
  }

  lemma ValueBracket(amount: nat, pair: PricePair)
    requires ValidPair(pair) && amount < TWO_128 && InBorrow(amount, pair).Some?
    ensures var r := InBorrow(amount, pair).value;
            r * BorrowUnit(pair) <= TWO_128 * (amount * CollateralUnit(pair)) < (r + 1) * BorrowUnit(pair)
  {
    var low := pair.collateral.price - pair.collateral.confidence;
    CoefficientFits(amount, low);
    RatioIsFloor(Pessimistic(amount, pair.collateral), Optimistic(1, pair.borrow));
    hide ExactRatio, Pow;
    ValueOf(amount, low, Pow(10, pair.collateral.exponent - Scale(pair)));
  }

  lemma RatioBracket(collateral: nat, liability: nat, pair: PricePair)
    requires ValidPair(pair) && collateral < TWO_128 && 0 < liability < TWO_128
    requires CollateralizationRatio(collateral, liability, pair).Some?
    ensures var r := CollateralizationRatio(collateral, liability, pair).value;
            r * (liability * BorrowUnit(pair)) <= TWO_128 * (collateral * CollateralUnit(pair))
  {
    var low, high := pair.collateral.price - pair.collateral.confidence, pair.borrow.price + pair.borrow.confidence;
    CoefficientFits(collateral, low);
    CoefficientFits(liability, high);
    RatioIsFloor(Pessimistic(collateral, pair.collateral), Optimistic(liability, pair.borrow));
    hide ExactRatio, Pow;
    ValueOf(collateral, low, Pow(10, pair.collateral.exponent - Scale(pair)));
    ValueOf(liability, high, Pow(10, pair.borrow.exponent - Scale(pair)));
  }

  // ---- Arithmetic ----

  lemma FloorBracket(a: nat, b: nat)
    requires b > 0
    ensures (a / b) * b <= a < (a / b + 1) * b
  {
    DivBounds(a, b);
  }

  /** What is paid is the price of what is sold, but for two units of 2^-128. */
  lemma PaidEnough(u: nat, k: nat, x: nat, c: nat, b: nat, value: nat, low: nat, paid: nat)
    requires 0 < k <= u && u * (x * c) < (value + 1) * b && value * k < (low + 1) * u && low <= paid * u
    ensures k * (x * c) < (paid * u + 2) * b
  {
    MulMono(low + 1, paid * u + 1, u);
    var n := (paid * u + 2) * b;
    assert k * (u * (x * c)) == (k * (x * c)) * u by { Swap(k, u, x * c); }
    assert k * ((value + 1) * b) == (value * k + k) * b by { Factored(k, value, b); }
    assert value * k + k <= (paid * u + 2) * u by { TwoMore(1, paid * u, u); }
    assert ((paid * u + 2) * u) * b == n * u by { Swap(b, u, paid * u + 2); }
    ScaleLess(u * (x * c), (value + 1) * b, k);
    MulMono(value * k + k, (paid * u + 2) * u, b);
    ScaleLess(k * (x * c), n, u);
  }

  lemma Swap(k: int, u: int, v: int)
    ensures k * (u * v) == (k * v) * u && (v * u) * k == (v * k) * u
  {
    MulAssoc(k, v, u);
    MulAssoc(v, u, k);
  }

  lemma Factored(k: int, value: int, b: int)
    ensures k * ((value + 1) * b) == (value * k + k) * b
  {
    MulAssoc(k, value + 1, b);
  }

  /** What is sold makes up for the shortfall, but for one part in the quotient. */
  lemma SoldEnough(u: nat, m: nat, k: nat, x: nat, short: nat, gain: nat, q: nat)
    requires short * u < (q + 1) * gain && q <= x * u && (gain + u) * u <= m * k
    ensures short * u < x * (m * k - u * u) + gain
  {
    var mk := m * k;
    MulMono(q + 1, x * u + 1, gain);
    assert (x * u + 1) * gain == x * (gain * u) + gain by { OneMore(x, u, gain); }
    assert (gain + u) * u == gain * u + u * u;
    MulMono(gain * u, mk - u * u, x);
  }

  lemma OneMore(x: int, u: int, gain: int)
    ensures (x * u + 1) * gain == x * (gain * u) + gain
  {
    MulAssoc(x, u, gain);
  }

  /** Selling a unit regains at most its value times the ratio, less one. */
  lemma GainAtMost(u: nat, m: nat, k: nat, gain: nat)
    requires u > 0 && k <= u && (gain + u) * u <= m * k
    ensures gain + u <= m
  {
    MulMono(k, u, m);
    ScaleLess(m, gain + u, u);
  }

  /** The shortfall is the value missing, but for one part of each rounding. */
  lemma ShortEnough(u: nat, m: nat, l: nat, held: nat, b: nat, c: nat, converted: nat, short: nat)
    requires m > 0 && u * (l * b) < (converted + 1) * c && converted * m < (short + held * u + 1) * u
    ensures m * (u * (l * b)) < (short * u + held * u * u + u + m) * c
  {
    var total := short * u + held * u * u + u;
    ScaleLess(u * (l * b), (converted + 1) * c, m);
    Factored(m, converted, c);
    assert (short + held * u + 1) * u == total by { Three(short, held * u, u); }
    MulMono(converted * m + m, total + m, c);
  }

  lemma Three(x: int, y: int, u: int)
    ensures (x + y + 1) * u == x * u + y * u + u
  {}

  /** The three together. */
  lemma Missed(u: nat, m: nat, k: nat, l: int, held: nat, x: nat, b: nat, c: nat, paid: nat, short: nat, gain: nat)
    requires k * (x * c) < (paid * u + 2) * b && c > 0
    requires short * u < x * (m * k - u * u) + gain && gain + u <= m
    requires m * (u * (l * b)) < (short * u + held * u * u + u + m) * c
    ensures m * (u * ((l - paid) * b)) < (held - x) * u * u * c + 2 * m * (b + c)
  {
    var mk := m * k;
    assert m * (u * ((l - paid) * b)) == m * (u * (l * b)) - m * (paid * u * b) by { Spread(m, u, l, paid, b); }
    assert m * (k * (x * c)) == x * mk * c by { Rearranged(m, k, x, c); }
    assert m * ((paid * u + 2) * b) == m * (paid * u * b) + 2 * m * b by { TwoMore(m, paid * u, b); }
    MulMono(k * (x * c), (paid * u + 2) * b, m);
    var bound := x * (mk - u * u) + gain + held * u * u + u + m;
    MulMono(short * u + held * u * u + u + m, bound, c);
    MulMono(gain + u + m, 2 * m, c);
    assert bound * c == x * mk * c + (held - x) * u * u * c + (gain + u + m) * c by {
      assert x * (mk - u * u) == x * mk - x * u * u by { Difference(x, mk, u); }
      Collected(x * mk, held, x, u, gain + u + m, c);
    }
    assert 2 * m * (b + c) == 2 * m * b + 2 * m * c;
  }

  lemma Spread(m: int, u: int, l: int, paid: int, b: int)
    ensures m * (u * ((l - paid) * b)) == m * (u * (l * b)) - m * (paid * u * b)
  {
    assert (l - paid) * b == l * b - paid * b;
    assert u * (l * b - paid * b) == u * (l * b) - u * (paid * b);
    assert u * (paid * b) == paid * u * b;
    assert m * (u * (l * b) - paid * u * b) == m * (u * (l * b)) - m * (paid * u * b);
  }

  lemma Rearranged(m: int, k: int, x: int, c: int)
    ensures m * (k * (x * c)) == x * (m * k) * c
  {
    MulAssoc(m, k, x * c);
    MulAssoc(m * k, x, c);
  }

  lemma TwoMore(m: int, n: int, b: int)
    ensures m * ((n + 2) * b) == m * (n * b) + 2 * m * b
  {
    assert (n + 2) * b == n * b + 2 * b;
  }

  lemma Difference(x: int, mk: int, u: int)
    ensures x * (mk - u * u) == x * mk - x * u * u
  {
    MulAssoc(x, u, u);
  }

  lemma Collected(y: int, held: int, x: int, u: int, rest: int, c: int)
    ensures (y - x * u * u + held * u * u + rest) * c == y * c + (held - x) * u * u * c + rest * c
  {
    assert (held - x) * u * u == held * u * u - x * u * u by {
      assert (held - x) * u == held * u - x * u;
    }
  }

  // ---- The quotient ----

  /** The position is below the maintenance ratio but not under water, and the quotient is
      computed. */
  ghost predicate Computed(collateral: nat, liability: nat, pair: PricePair, mcr: Decimal, spread: Decimal) {
    && ValidPair(pair) && collateral < TWO_128 && 0 < liability < TWO_128 && spread < ONE && mcr < TWO_256
    && CollateralizationRatio(collateral, liability, pair).Some?
    && ONE < CollateralizationRatio(collateral, liability, pair).value < mcr
    && SoldAmount(collateral, liability, pair, mcr, spread).Some?
  }

  /** The dividend and the divisor. */
  ghost function Short(collateral: nat, liability: nat, pair: PricePair, mcr: Decimal, spread: Decimal): (r: nat)
    requires Computed(collateral, liability, pair, mcr, spread)
  {
    Mul(mcr, InCollateral(liability, pair).value).value - collateral * TWO_128
  }

  ghost function Regained(mcr: Decimal, spread: Decimal): (r: int)
    requires spread < ONE && Mul(mcr, ONE - spread).Some?
  {
    Mul(mcr, ONE - spread).value - ONE
  }

  lemma LiabilityBelow(held: nat, l: nat, b: nat, c: nat, r: nat, u: nat)
    requires r > u && l * b > 0 && r * (l * b) <= u * (held * c)
    ensures u * (l * b) < u * held * c
  {
    ScaleLess(u, r, l * b);
    MulAssoc(u, held, c);
  }

  lemma ConvertedBelow(converted: nat, c: nat, u: nat, v: nat, held: nat)
    requires c > 0 && converted * c <= v && v < u * held * c
    ensures converted < u * held
  {
    ScaleLess(converted, u * held, c);
  }

  /** The dividend is below 2^384, so that the division is exact. */
  lemma ShortFits(collateral: nat, liability: nat, pair: PricePair, mcr: Decimal, spread: Decimal)
    requires Computed(collateral, liability, pair, mcr, spread)
    ensures Short(collateral, liability, pair, mcr, spread) < TWO_384
  {
    hide Mul, ExactRatio, InUnits;
    UnitsPositive(pair);
    RatioBracket(collateral, liability, pair);
    ConvertedBracket(liability, pair);
    var converted := InCollateral(liability, pair).value;
    var b, c := BorrowUnit(pair), CollateralUnit(pair);
    MulMono(1, liability, b);
    LiabilityBelow(collateral, liability, b, c, CollateralizationRatio(collateral, liability, pair).value, TWO_128);
    ConvertedBelow(converted, c, TWO_128, TWO_128 * (liability * b), collateral);
    MulIsFloor(mcr, converted);
    ProductFits(mcr, converted, collateral);
  }

  lemma ProductFits(m: nat, converted: nat, held: nat)
    requires m < TWO_256 && held < TWO_128 && converted < TWO_128 * held
    ensures m * converted / TWO_128 < TWO_384
  {
    MulMono(held, TWO_128, TWO_128);
    MulMono(converted, TWO_128 * TWO_128, m);
    MulMono(m, TWO_256, TWO_256);
    DivBounds(m * converted, TWO_128);
  }

  /** The rounded quotient and its parts, bracketed. */
  lemma QuotientBracket(collateral: nat, liability: nat, pair: PricePair, mcr: Decimal, spread: Decimal)
    requires Computed(collateral, liability, pair, mcr, spread)
    ensures Mul(mcr, ONE - spread).Some? && Regained(mcr, spread) > 0
    ensures var short, gain := Short(collateral, liability, pair, mcr, spread), Regained(mcr, spread);
            var q, converted := SoldAmount(collateral, liability, pair, mcr, spread).value,
                                InCollateral(liability, pair).value;
            && q * gain <= short * TWO_128 < (q + 1) * gain
            && (short + collateral * TWO_128) * TWO_128 <= converted * mcr
               < (short + collateral * TWO_128 + 1) * TWO_128
            && (gain + TWO_128) * TWO_128 <= mcr * (ONE - spread) < (gain + TWO_128 + 1) * TWO_128
  {
    hide Mul, Div, ExactRatio, InUnits;
    ShortFits(collateral, liability, pair, mcr, spread);
    var converted := InCollateral(liability, pair).value;
    MulIsFloor(mcr, converted);
    MulIsFloor(mcr, ONE - spread);
    FloorBracket(mcr * converted, TWO_128);
    FloorBracket(mcr * (ONE - spread), TWO_128);
    var short, gain := Short(collateral, liability, pair, mcr, spread), Regained(mcr, spread);
    assert QuotientFits(short, gain) by { MulMono(1, gain, TWO_512); }
    DivExact(short, gain);
    FloorBracket(short * TWO_128, gain);
  }

  /** What is sold is the ceiling of the quotient, or all the collateral. */
  lemma SoldIs(collateral: nat, liability: nat, pair: PricePair, mcr: Decimal, spread: Decimal)
    requires Computed(collateral, liability, pair, mcr, spread)
    ensures var x := LiquidatableCollateral(collateral, liability, pair, mcr, spread);
            var q := SoldAmount(collateral, liability, pair, mcr, spread).value;
            && x.Some? && x.value <= collateral
            && (x.value < collateral ==> q <= x.value * TWO_128)
            && (x.value > 0 ==> (x.value - 1) * TWO_128 < q)
  {
    hide SoldAmount, CollateralizationRatio;
    var q := SoldAmount(collateral, liability, pair, mcr, spread).value;
    var amount := ToU128Ceil(q);
    if amount.None? {
      MulMono(collateral, TWO_128 - 1, TWO_128);
    } else if collateral < amount.value {
      MulMono(collateral - 1, amount.value - 1, TWO_128);
    }
  }

  lemma OfferBracket(amount: nat, pair: PricePair, spread: Decimal)
    requires ValidPair(pair) && amount < TWO_128 && spread < ONE && LowestOffer(amount, pair, spread).Some?
    ensures var value := InBorrow(amount, pair).value;
            && Mul(value, ONE - spread).Some?
            && var low := Mul(value, ONE - spread).value;
               value * (ONE - spread) < (low + 1) * TWO_128
               && low <= LowestOffer(amount, pair, spread).value * TWO_128
  {
    hide Mul, ExactRatio;
    var value := InBorrow(amount, pair).value;
    MulIsFloor(value, ONE - spread);
    FloorBracket(value * (ONE - spread), TWO_128);
    var low := Mul(value, ONE - spread).value;
    MulMono(ToU128Ceil(low).value, LowestOffer(amount, pair, spread).value, TWO_128);
  }

  // ---- What the rounding costs ----

  /** A liquidator takes all that may be taken, but not all the collateral, at the lowest
      price. The liability left exceeds what the collateral left supports at the
      maintenance ratio by less than `2 (1 + price)` units of 2^-128, `price` being the
      value of a unit of collateral in the borrow asset. */
  lemma RoundingCosts(collateral: nat, liability: nat, pair: PricePair, mcr: Decimal, spread: Decimal)
    requires Computed(collateral, liability, pair, mcr, spread)
    requires LiquidatableCollateral(collateral, liability, pair, mcr, spread).value < collateral
    requires var x := LiquidatableCollateral(collateral, liability, pair, mcr, spread).value;
             LowestOffer(x, pair, spread).Some?
    ensures var x := LiquidatableCollateral(collateral, liability, pair, mcr, spread).value;
            var b, c := BorrowUnit(pair), CollateralUnit(pair);
            mcr * (TWO_128 * ((liability - LowestOffer(x, pair, spread).value) * b))
            < (collateral - x) * TWO_128 * TWO_128 * c + 2 * mcr * (b + c)
  {
    hide Mul, Div, ExactRatio, InUnits, LowestOffer, LiquidatableCollateral, SoldAmount, Short, Regained;
    hide BorrowUnit, CollateralUnit, InCollateral, InBorrow, CollateralizationRatio;
    SoldIs(collateral, liability, pair, mcr, spread);
    var x := LiquidatableCollateral(collateral, liability, pair, mcr, spread).value;
    var u, k, b, c := TWO_128, ONE - spread, BorrowUnit(pair), CollateralUnit(pair);
    var paid := LowestOffer(x, pair, spread).value;
    var value := InBorrowDefined(x, pair, spread);
    UnitsPositive(pair);
    QuotientBracket(collateral, liability, pair, mcr, spread);
    var short, gain := Short(collateral, liability, pair, mcr, spread), Regained(mcr, spread);
    var q := SoldAmount(collateral, liability, pair, mcr, spread).value;
    ConvertedDefined(collateral, liability, pair, mcr, spread);
    var converted := InCollateral(liability, pair).value;
    ConvertedBracket(liability, pair);
    OfferBracket(x, pair, spread);
    ValueBracket(x, pair);
    PaidEnough(u, k, x, c, b, value, Mul(value, k).value, paid);
    SoldEnough(u, mcr, k, x, short, gain, q);
    GainAtMost(u, mcr, k, gain);
    ShortEnough(u, mcr, liability, collateral, b, c, converted, short);
    Missed(u, mcr, k, liability, collateral, x, b, c, paid, short, gain);
  }

  lemma ConvertedDefined(collateral: nat, liability: nat, pair: PricePair, mcr: Decimal, spread: Decimal)
    requires Computed(collateral, liability, pair, mcr, spread)
    ensures InCollateral(liability, pair).Some?
  {
    hide ExactRatio, Mul, Div;
  }

  lemma InBorrowDefined(amount: nat, pair: PricePair, spread: Decimal) returns (value: Decimal)
    requires ValidPair(pair) && amount < TWO_128 && spread < ONE && LowestOffer(amount, pair, spread).Some?
    ensures InBorrow(amount, pair) == Some(value)
  {
    hide ExactRatio, Mul;
    value := InBorrow(amount, pair).value;
  }

  /** Unless a unit of collateral is worth some 2^127 of the borrow asset, that is less
      than one unit of liability. */
  lemma WithinOneUnit(collateral: nat, liability: nat, pair: PricePair, mcr: Decimal, spread: Decimal)
    requires Computed(collateral, liability, pair, mcr, spread)
    requires LiquidatableCollateral(collateral, liability, pair, mcr, spread).value < collateral
    requires var x := LiquidatableCollateral(collateral, liability, pair, mcr, spread).value;
             LowestOffer(x, pair, spread).Some?
    requires 2 * (BorrowUnit(pair) + CollateralUnit(pair)) <= TWO_128 * BorrowUnit(pair)
    ensures var x := LiquidatableCollateral(collateral, liability, pair, mcr, spread).value;
            var left := liability - LowestOffer(x, pair, spread).value - 1;
            mcr * (left * BorrowUnit(pair)) <= TWO_128 * ((collateral - x) * CollateralUnit(pair))
  {
    hide Mul, Div, ExactRatio, InUnits, LowestOffer, LiquidatableCollateral, SoldAmount, BorrowUnit, CollateralUnit;
    hide InCollateral, InBorrow, CollateralizationRatio;
    SoldIs(collateral, liability, pair, mcr, spread);
    RoundingCosts(collateral, liability, pair, mcr, spread);
    var x := LiquidatableCollateral(collateral, liability, pair, mcr, spread).value;
    OneLess(TWO_128, mcr, liability - LowestOffer(x, pair, spread).value, collateral - x,
            BorrowUnit(pair), CollateralUnit(pair));
  }

  lemma OneLess(u: nat, m: nat, l: int, held: int, b: nat, c: nat)
    requires u > 0 && 2 * (b + c) <= u * b && m * (u * (l * b)) < held * u * u * c + 2 * m * (b + c)
    ensures m * ((l - 1) * b) <= u * (held * c)
  {
    MulMono(2 * (b + c), u * b, m);
    assert m * (u * (l * b)) - m * (u * b) == (m * ((l - 1) * b)) * u by { LessOne(m, u, l, b); }
    assert 2 * m * (b + c) == 2 * (b + c) * m;
    assert held * u * u * c == (u * (held * c)) * u by { Gathered(held, u, c); }
    ScaleLess(u * (held * c), m * ((l - 1) * b), u);
  }

  lemma LessOne(m: int, u: int, l: int, b: int)
    ensures m * (u * (l * b)) - m * (u * b) == (m * ((l - 1) * b)) * u
  {
    assert (l - 1) * b == l * b - b;
    Swap(m, u, l * b);
    Swap(m, u, b);
  }

  lemma Gathered(h: int, u: int, c: int)
    ensures h * u * u * c == (u * (h * c)) * u
  {
    MulAssoc(h, u, u);
    MulAssoc(h, u * u, c);
    Swap(h, u * u, c);
    MulAssoc(u, h * c, u);
  }

  // ---- What the rounding takes too much ----

  lemma SoldNoMore(u: nat, y: nat, short: nat, gain: nat, q: nat)
    requires u > 0 && gain > 0 && y * u < q && q * gain <= short * u
    ensures y * gain < short
  {
    ScaleLess(y * u, q, gain);
    Swap(gain, u, y);
    ScaleLess(y * gain, short, u);
  }

  lemma ShortNoMore(u: nat, m: nat, l: nat, held: nat, b: nat, c: nat, converted: nat, short: nat)
    requires converted * c <= u * (l * b) && (short + held * u) * u <= converted * m
    ensures (short + held * u) * u * c <= m * (u * (l * b))
  {
    MulMono((short + held * u) * u, converted * m, c);
    MulMono(converted * c, u * (l * b), m);
    Swap(c, m, converted);
  }

  lemma PerUnit(u: nat, mk: nat, held: nat, y: nat, short: nat, gain: nat)
    requires u > 0 && y * gain < short && mk < (gain + u + 1) * u
    ensures (held - y) * u * u + y * mk < (short + held * u) * u + y * u
  {
    assert y * mk <= (y * gain) * u + y * u * u + y * u by {
      Three(gain, u, u);
      MulMono(mk, gain * u + u * u + u, y);
      Parts(y, gain, u);
    }
    assert (y * gain) * u < short * u by { ScaleLess(y * gain, short, u); }
    assert (short + held * u) * u == short * u + held * u * u by { Sum(short, held * u, u); }
    assert (held - y) * u * u == held * u * u - y * u * u by { Apart(held, y, u); }
  }

  lemma Sum(a: int, b: int, c: int)
    ensures (a + b) * c == a * c + b * c
  {}

  lemma Apart(a: int, b: int, u: int)
    ensures (a - b) * u * u == a * u * u - b * u * u
  {
    assert (a - b) * u == a * u - b * u;
    Sum(a * u - b * u, b * u, u);
  }

  lemma NotTooMuch(u: nat, mk: nat, needed: nat, held: nat, y: nat, c: nat, short: nat, gain: nat)
    requires c > 0 && u > 0 && y * gain < short && mk < (gain + u + 1) * u
    requires (short + held * u) * u * c <= needed
    ensures (held - y) * u * u * c < needed - y * mk * c + y * u * c
  {
    PerUnit(u, mk, held, y, short, gain);
    var v, w := (held - y) * u * u, (short + held * u) * u;
    ScaleLess(v + y * mk, w + y * u, c);
    Sum(v, y * mk, c);
    Sum(w, y * u, c);
  }

  lemma Parts(y: int, gain: int, u: int)
    ensures y * (gain * u + u * u + u) == (y * gain) * u + y * u * u + y * u
  {
    MulAssoc(y, gain, u);
    MulAssoc(y, u, u);
  }

  /** Selling one unit less at the lowest price would leave the position below the
      maintenance ratio, but for `y` units of 2^-128 of collateral, which is less than one
      unit of it. */
  lemma NoMoreThanNeeded(collateral: nat, liability: nat, pair: PricePair, mcr: Decimal, spread: Decimal)
    requires Computed(collateral, liability, pair, mcr, spread)
    requires LiquidatableCollateral(collateral, liability, pair, mcr, spread).value > 0
    ensures var y := LiquidatableCollateral(collateral, liability, pair, mcr, spread).value - 1;
            var b, c := BorrowUnit(pair), CollateralUnit(pair);
            (collateral - y) * TWO_128 * TWO_128 * c
            < mcr * (TWO_128 * (liability * b)) - y * (mcr * (ONE - spread)) * c + y * TWO_128 * c
  {
    hide Mul, Div, ExactRatio, InUnits, LiquidatableCollateral, SoldAmount, Short, Regained;
    hide BorrowUnit, CollateralUnit, InCollateral, CollateralizationRatio;
    SoldIs(collateral, liability, pair, mcr, spread);
    var y: nat := LiquidatableCollateral(collateral, liability, pair, mcr, spread).value - 1;
    var u, b, c := TWO_128, BorrowUnit(pair), CollateralUnit(pair);
    UnitsPositive(pair);
    QuotientBracket(collateral, liability, pair, mcr, spread);
    ConvertedDefined(collateral, liability, pair, mcr, spread);
    ConvertedBracket(liability, pair);
    var short, gain := Short(collateral, liability, pair, mcr, spread), Regained(mcr, spread);
    SoldNoMore(u, y, short, gain, SoldAmount(collateral, liability, pair, mcr, spread).value);
    ShortNoMore(u, mcr, liability, collateral, b, c, InCollateral(liability, pair).value, short);
    NotTooMuch(u, mcr * (ONE - spread), mcr * (u * (liability * b)), collateral, y, c, short, gain);
  }

  // ---- A panic ----

  /** Where every ratio and product has a value, computing the amount panics exactly when
      the liability, converted and rounded, times the maintenance ratio falls below the
      collateral although the ratio does not reach the maintenance ratio. */
  lemma PanicsExactly(collateral: nat, liability: nat, pair: PricePair, mcr: Decimal, spread: Decimal)
    requires ValidPair(pair) && collateral < TWO_128 && 0 < liability < TWO_128 && spread < ONE
    requires CollateralizationRatio(collateral, liability, pair).Some? && InCollateral(liability, pair).Some?
    requires Mul(mcr, InCollateral(liability, pair).value).Some?
    requires Mul(mcr, ONE - spread).Some? && Mul(mcr, ONE - spread).value > ONE
    ensures LiquidatableCollateral(collateral, liability, pair, mcr, spread).None? <==>
            && ONE < CollateralizationRatio(collateral, liability, pair).value < mcr
            && mcr * InCollateral(liability, pair).value < collateral * TWO_128 * TWO_128
  {
    hide Mul, ExactRatio;
    var converted := InCollateral(liability, pair).value;
    MulIsFloor(mcr, converted);
    FloorBracket(mcr * converted, TWO_128);
    var needed := Mul(mcr, converted).value;
    if needed < collateral * TWO_128 {
      MulMono(needed + 1, collateral * TWO_128, TWO_128);
    } else {
      MulMono(collateral * TWO_128, needed, TWO_128);
    }
  }

  const SEVEN: Price := Price(7, 0, 0)
  const UNIT: Price := Price(1, 0, 0)

  lemma WholeRatio(a: nat, b: nat)
    requires a < TWO_256 && 0 < b < TWO_256
    ensures ExactRatio(Valuation(a, 0), Valuation(b, 0)) == Some(a * TWO_128 / b)
  {
    assert MulPow10(a * TWO_128, 0) == Some(a * TWO_128);
    hide MulPow10, Div;
    DivByCoefficient(a * TWO_128, b);
  }

  lemma JustBelow(u: nat, p: nat, q: nat)
    requires 3 * p == 7 * u + 8 && 7 * q == 3 * u - 5
    ensures p * q < u * u
  {
    assert (3 * p) * (7 * q) == 21 * (p * q);
    assert (7 * u + 8) * (3 * u - 5) == 21 * (u * u) - 11 * u - 40;
  }

  lemma Sevenths(converted: nat, mcr: nat)
    requires converted == 3 * TWO_128 / 7 && mcr == (7 * TWO_128 + 8) / 3
    ensures 7 * converted == 3 * TWO_128 - 5 && 3 * mcr == 7 * TWO_128 + 8 && mcr % 8 == 0
    ensures ONE < 7 * TWO_128 / 3 < mcr < TWO_256
  {}

  /** One unit of collateral worth seven, three units of liability worth one each, and a
      maintenance ratio of 7/3 rounded up to the parser's grid. */
  lemma AlmostMaintained(mcr: Decimal)
    requires mcr == (7 * TWO_128 + 8) / 3
    ensures mcr % 8 == 0 && CollateralizationRatio(1, 3, PricePair(SEVEN, UNIT)).Some?
    ensures LiquidatableCollateral(1, 3, PricePair(SEVEN, UNIT), mcr, 0).None?
  {
    hide ExactRatio, Mul;
    var pair, converted := PricePair(SEVEN, UNIT), 3 * TWO_128 / 7;
    WholeRatio(7, 3);
    WholeRatio(3, 7);
    Sevenths(converted, mcr);
    JustBelow(TWO_128, mcr, converted);
    MulSmall(mcr, converted);
    MulMono(mcr, TWO_256, ONE);
    MulSmall(mcr, ONE);
    PanicsExactly(1, 3, pair, mcr, 0);
  }
}
