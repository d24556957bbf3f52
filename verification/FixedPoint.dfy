/**
 The 512-bit fixed-point type `Decimal` (128 fractional bits) and its operators.
 A `Decimal` is modelled by its representation, so the value it stands for is
 `x / 2^128`. Operators that abort in the source return `None`.
 */
module FixedPoint {
  import opened Arith

  type Decimal = x: int | 0 <= x < TWO_512

  const FRACTIONAL_DECIMAL_DIGITS: nat := 38
  const WHOLE_DECIMAL_DIGITS: nat := 115
  const ZERO: Decimal := 0
  const ONE: Decimal := TWO_128
  const MAX: Decimal := TWO_512 - 1
  const REPR_EPSILON: nat := 8

  /** The whole and the fractional part. */
  function Whole(x: Decimal): (r: nat) {
    x / TWO_128
  }

  function Fraction(x: Decimal): (r: Decimal)
    ensures r < ONE
  {
    x % TWO_128
  }

  /** Order is decided by the whole parts, then by the fractions. */
  lemma SplitOrder(x: Decimal, y: Decimal)
    requires x <= y
    ensures Whole(x) < Whole(y) || (Whole(x) == Whole(y) && Fraction(x) <= Fraction(y))
  {}

  // ---- Bits of a 512-bit word ----

  function Shr(x: nat, k: nat): (r: nat) {
    PowPositive(2, k);
    x / Pow(2, k)
  }

  function TrailingZeros(x: nat): (r: nat) {
    if x == 0 then 512 else if x % 2 == 1 then 0 else 1 + TrailingZeros(x / 2)
  }

  function BitLength(x: nat): (r: nat) {
    if x == 0 then 0 else 1 + BitLength(x / 2)
  }

  function LeadingZeros(x: nat): (r: int) {
    512 - BitLength(x)
  }

  /** Up to its trailing zeros, a shift to the right loses nothing. */
  lemma {:induction false} ShrExact(x: nat, k: nat)
    requires k <= TrailingZeros(x)
    ensures Shr(x, k) * Pow(2, k) == x
  {
    PowPositive(2, k);
    if x == 0 {
      assert 0 / Pow(2, k) == 0;
    } else if k > 0 {
      ShrExact(x / 2, k - 1);
      PowPositive(2, k - 1);
      DivDiv(x, 2, Pow(2, k - 1));
      var y := Shr(x / 2, k - 1);
      assert Shr(x, k) == y;
      assert y * Pow(2, k) == 2 * (y * Pow(2, k - 1));
    }
  }

  lemma {:induction false} BitLengthBound(x: nat)
    ensures x < Pow(2, BitLength(x))
  {
    if x > 0 {
      BitLengthBound(x / 2);
    }
  }

  lemma {:induction false} BitLengthAtMost(x: nat, k: nat)
    requires x < Pow(2, k)
    ensures BitLength(x) <= k
  {
    if x > 0 {
      BitLengthAtMost(x / 2, k - 1);
    }
  }

  /** Up to its leading zeros, a shift to the left does not overflow. */
  lemma ShlFits(x: nat, k: nat)
    requires x < TWO_512 && k <= LeadingZeros(x)
    ensures x * Pow(2, k) < TWO_512
  {
    var n := BitLength(x);
    BitLengthBound(x);
    PowPositive(2, k);
    ScaleLess(x, Pow(2, n), Pow(2, k));
    PowAdd(2, n, k);
    PowMonotone(2, n + k, BITS_512);
    Pow2Values();
  }

  // ---- Multiplication ----

  /** How many trailing zeros `Mul` strips from its left and right operand. */
  function MulShifts(a: nat, b: nat): (s: (nat, nat)) {
    var left := Min(TrailingZeros(a), 128);
    (left, Min(TrailingZeros(b), 128 - left))
  }

  function Mul(a: Decimal, b: Decimal): (r: Option<Decimal>) {
    var (left, right) := MulShifts(a, b);
    var product := Shr(a, left) * Shr(b, right);
    if product < TWO_512 then
      ShrSmaller(product, 128 - left - right);
      Some(Shr(product, 128 - left - right))
    else
      None
  }

  lemma ShrSmaller(x: nat, k: nat)
    ensures Shr(x, k) <= x
  {
    PowPositive(2, k);
    DivShrinks(x, Pow(2, k));
  }

  /** The bits that both operands together can give up before multiplying. */
  function SharedZeros(a: nat, b: nat): (s: nat) {
    Min(128, TrailingZeros(a) + TrailingZeros(b))
  }

  lemma MulStripped(a: Decimal, b: Decimal)
    ensures var (left, right) := MulShifts(a, b);
            && left + right == SharedZeros(a, b)
            && a * b == Shr(a, left) * Shr(b, right) * Pow(2, SharedZeros(a, b))
  {
    var (left, right) := MulShifts(a, b);
    ShrExact(a, left);
    ShrExact(b, right);
    PowAdd(2, left, right);
    ScaleProduct(Shr(a, left), Pow(2, left), Shr(b, right), Pow(2, right));
  }

  /** Multiplication is the exact floor, or aborts; it aborts exactly when the
      product is too wide once the shared trailing zeros are stripped. */
  lemma MulIsFloor(a: Decimal, b: Decimal)
    ensures Mul(a, b).Some? <==> a * b < TWO_512 * Pow(2, SharedZeros(a, b))
    ensures Mul(a, b).Some? ==> Mul(a, b).value == a * b / TWO_128
  {
    var (left, right) := MulShifts(a, b);
    var s := SharedZeros(a, b);
    var product := Shr(a, left) * Shr(b, right);
    MulStripped(a, b);
    PowPositive(2, s);
    PowPositive(2, 128 - s);
    ScaleLess(product, TWO_512, Pow(2, s));
    assert Pow(2, 128 - s) * Pow(2, s) == TWO_128 by {
      Pow2Values();
      PowAdd(2, 128 - s, s);
    }
    DivCancel(product, Pow(2, 128 - s), Pow(2, s));
  }

  /** The two operands play the same part, in the result and in the abort. */
  lemma MulCommutes(a: Decimal, b: Decimal)
    ensures Mul(a, b) == Mul(b, a)
  {
    MulIsFloor(a, b);
    MulIsFloor(b, a);
  }

  /** A product below `2^512` never aborts. */
  lemma MulSmall(a: Decimal, b: Decimal)
    requires a * b < TWO_512
    ensures Mul(a, b) == Some(a * b / TWO_128)
  {
    MulIsFloor(a, b);
    PowPositive(2, SharedZeros(a, b));
    MulMono(1, Pow(2, SharedZeros(a, b)), TWO_512);
  }

  /** Multiplying by a whole number is exact. */
  lemma MulByWhole(n: nat, b: Decimal)
    requires n * TWO_128 < TWO_512
    ensures Mul(n * TWO_128, b).Some? <==> n * b < TWO_512
    ensures Mul(n * TWO_128, b).Some? ==> Mul(n * TWO_128, b).value == n * b
  {
    var a: Decimal := n * TWO_128;
    WholeTrailingZeros(n);
    MulIsFloor(a, b);
    Pow2Values();
    assert SharedZeros(a, b) == BITS_128;
    assert a * b == n * b * TWO_128;
    ScaleLess(n * b, TWO_512, TWO_128);
  }

  lemma {:induction false} ManyTrailingZeros(n: nat, k: nat)
    requires k <= 512
    ensures TrailingZeros(n * Pow(2, k)) >= k
  {
    if k > 0 && n > 0 {
      ManyTrailingZeros(n, k - 1);
      PowPositive(2, k - 1);
      var half := n * Pow(2, k - 1);
      assert n * Pow(2, k) == 2 * half;
      assert half > 0;
    }
  }

  lemma WholeTrailingZeros(n: nat)
    ensures TrailingZeros(n * TWO_128) >= 128
  {
    Pow2Values();
    ManyTrailingZeros(n, BITS_128);
  }

  // ---- Division ----

  function DivShifts(a: nat, b: nat): (s: (nat, nat))
    requires a < TWO_512
  {
    Pow2Values();
    BitLengthAtMost(a, BITS_512);
    var left := Min(LeadingZeros(a), 128);
    (left, Min(TrailingZeros(b), 128 - left))
  }

  /** The shift that is left for after the division. */
  function DivLeftover(a: nat, b: nat): (sh: nat)
    requires a < TWO_512
  {
    var (left, right) := DivShifts(a, b);
    128 - left - right
  }

  /** The quotient before the 512-bit word cuts it off. */
  function DivUncut(a: Decimal, b: Decimal): (r: nat)
    requires b > 0
  {
    var (left, right) := DivShifts(a, b);
    StrippedPositive(b, right);
    var quotient: nat := ShlThenDiv(a, left, Shr(b, right));
    MulNat(quotient, Pow(2, DivLeftover(a, b)));
    quotient * Pow(2, DivLeftover(a, b))
  }

  function ShlThenDiv(x: nat, k: nat, y: nat): (r: nat)
    requires y > 0
  {
    MulNat(x, Pow(2, k));
    x * Pow(2, k) / y
  }

  lemma StrippedPositive(b: nat, k: nat)
    requires b > 0 && k <= TrailingZeros(b)
    ensures Shr(b, k) > 0
  {
    ShrExact(b, k);
  }

  function Div(a: Decimal, b: Decimal): (r: Option<Decimal>)
    ensures r.Some? <==> b != 0
  {
    if b == 0 then None else Some(DivUncut(a, b) % TWO_512)
  }

  /** The leftover shift times the quotient brackets the true quotient from below. */
  lemma DivUncutBracket(a: Decimal, b: Decimal)
    requires b > 0
    ensures b * DivUncut(a, b) <= a * TWO_128 < b * (DivUncut(a, b) + Pow(2, DivLeftover(a, b)))
  {
    var (left, right) := DivShifts(a, b);
    var sh := DivLeftover(a, b);
    StrippedPositive(b, right);
    ShrExact(b, right);
    var x, y := a * Pow(2, left), Shr(b, right);
    var q := ShlThenDiv(a, left, y);
    hide Pow, Shr;
    MulNat(a, Pow(2, left));
    DivBounds(x, y);
    PowPositive(2, right);
    PowPositive(2, sh);
    BracketScale(x, y, q, Pow(2, right), Pow(2, sh));
    ShiftsAddUp(a, left, right, sh);
  }

  lemma ShiftsAddUp(a: nat, left: nat, right: nat, sh: nat)
    requires left + right + sh == 128
    ensures (a * Pow(2, left)) * (Pow(2, right) * Pow(2, sh)) == a * TWO_128
  {
    hide Pow;
    PowAdd(2, right, sh);
    PowAdd(2, left, right + sh);
    Pow2At128(left + (right + sh));
    MulCong(Pow(2, left), Pow(2, right + sh), Pow(2, right) * Pow(2, sh));
    Regroup(a, Pow(2, left), Pow(2, right) * Pow(2, sh), TWO_128);
  }

  lemma Regroup(a: nat, p: nat, q: nat, t: nat)
    requires p * q == t
    ensures (a * p) * q == a * t
  {
    MulAssoc(a, p, q);
  }

  predicate QuotientFits(a: Decimal, b: Decimal) {
    a * TWO_128 < b * TWO_512
  }

  /** Division never exceeds the true quotient. It is below it by less than
      `2^DivLeftover` units exactly when that quotient fits the type; past that
      point the source drops the high bits without a check. */
  lemma DivBracket(a: Decimal, b: Decimal)
    requires b > 0
    ensures b * Div(a, b).value <= a * TWO_128
    ensures QuotientFits(a, b) <==>
            a * TWO_128 < b * (Div(a, b).value + Pow(2, DivLeftover(a, b)))
  {
    DivAtMostQuotient(a, b);
    hide *;
    if QuotientFits(a, b) {
      FittingQuotient(a, b);
    } else {
      OverflowingQuotient(a, b);
    }
  }

  lemma DivAtMostQuotient(a: Decimal, b: Decimal)
    requires b > 0
    ensures b * Div(a, b).value <= a * TWO_128
  {
    hide Pow, DivLeftover, DivUncut;
    DivUncutBracket(a, b);
    MulMono(DivUncut(a, b) % TWO_512, DivUncut(a, b), b);
  }

  lemma OverflowingQuotient(a: Decimal, b: Decimal)
    requires b > 0 && !QuotientFits(a, b)
    ensures a * TWO_128 >= b * (Div(a, b).value + Pow(2, DivLeftover(a, b)))
  {
    RoomAfterDiv(a, b);
    hide Div, Pow, DivLeftover;
    BelowScaled(a * TWO_128, b, Div(a, b).value + Pow(2, DivLeftover(a, b)), TWO_512);
  }

  lemma BelowScaled(t: int, b: nat, x: int, n: int)
    requires x <= n && b * n <= t
    ensures b * x <= t
  {
    MulMono(x, n, b);
  }

  lemma RoomAfterDiv(a: Decimal, b: Decimal)
    requires b > 0
    ensures Div(a, b).value + Pow(2, DivLeftover(a, b)) <= TWO_512
  {
    hide Pow, DivLeftover, DivUncut;
    RoomForUnit(a, b);
  }

  lemma FittingQuotient(a: Decimal, b: Decimal)
    requires b > 0 && QuotientFits(a, b)
    ensures a * TWO_128 < b * (Div(a, b).value + Pow(2, DivLeftover(a, b)))
  {
    hide Pow, DivLeftover, DivUncut;
    DivUncutBracket(a, b);
    ScaleLess(DivUncut(a, b), TWO_512, b);
    assert Div(a, b).value == DivUncut(a, b);
  }

  /** The cut-off quotient is still a multiple of the leftover shift. */
  lemma RoomForUnit(a: Decimal, b: Decimal)
    requires b > 0
    ensures DivUncut(a, b) % TWO_512 + Pow(2, DivLeftover(a, b)) <= TWO_512
  {
    var sh := DivLeftover(a, b);
    var (left, right) := DivShifts(a, b);
    StrippedPositive(b, right);
    Pow2Values();
    PowAdd(2, 512 - sh, sh);
    PowPositive(2, sh);
    PowPositive(2, 512 - sh);
    MultipleRemainder(ShlThenDiv(a, left, Shr(b, right)), Pow(2, sh), Pow(2, 512 - sh));
  }

  /** Below `2^384`, or by a whole number, the quotient is the exact floor. */
  lemma DivExact(a: Decimal, b: Decimal)
    requires b > 0 && QuotientFits(a, b)
    requires a < TWO_384 || b % TWO_128 == 0
    ensures Div(a, b) == Some(a * TWO_128 / b)
  {
    Pow2Values();
    if a < TWO_384 {
      BitLengthAtMost(a, BITS_384);
    } else {
      WholeTrailingZeros(b / TWO_128);
      assert b == b / TWO_128 * TWO_128;
    }
    assert DivLeftover(a, b) == 0;
    DivBracket(a, b);
    DivUnique(a * TWO_128, b, Div(a, b).value);
  }

  /** Dividing the largest value by the smallest silently gives a wrong answer. */
  lemma DivWraps()
    ensures Div(MAX, 1).Some? && Div(MAX, 1).value < MAX
  {
    var (left, right) := DivShifts(MAX, 1);
    assert right == 0 by {
      assert TrailingZeros(1) == 0;
    }
    assert left == 0 by {
      if left > 0 {
        ShlFits(MAX, left);
        PowMonotone(2, 1, left);
        MulMono(2, Pow(2, left), MAX);
      }
    }
    Pow2Values();
    assert Shr(1, right) == 1;
    assert DivUncut(MAX, 1) == MAX * TWO_128;
    assert MAX * TWO_128 == (TWO_128 - 1) * TWO_512 + (TWO_512 - TWO_128);
    assert (MAX * TWO_128) % TWO_512 == TWO_512 - TWO_128;
  }

  // ---- Integers ----

  /** `Decimal * n` and `Decimal / n` for a machine integer `n`. */
  function MulInt(a: Decimal, n: nat): (r: Option<Decimal>) {
    if a * n < TWO_512 then Some(a * n) else None
  }

  function DivInt(a: Decimal, n: nat): (r: Option<Decimal>) {
    if n == 0 then None else
      DivShrinks(a, n);
      Some(a / n)
  }

  function Add(a: Decimal, b: Decimal): (r: Option<Decimal>) {
    if a + b < TWO_512 then Some(a + b) else None
  }

  function Sub(a: Decimal, b: Decimal): (r: Option<Decimal>) {
    if b <= a then Some(a - b) else None
  }

  /** The least integer not below the value, when that is a `u128`. */
  function ToU128Ceil(a: Decimal): (r: Option<nat>)
    ensures r.Some? <==> a <= (TWO_128 - 1) * TWO_128
    ensures r.Some? ==> (r.value - 1) * TWO_128 < a <= r.value * TWO_128
  {
    var truncated := a / TWO_128;
    if truncated < TWO_128 then
      if a % TWO_128 == 0 then Some(truncated)
      else if truncated + 1 < TWO_128 then Some(truncated + 1)
      else None
    else
      None
  }

  // ---- Rounding to the parser's grid ----

  function EpsilonRound(x: nat): (r: nat)
    ensures r % 8 == 0 && x - 4 < r <= x + 4
  {
    (x + REPR_EPSILON / 2) / REPR_EPSILON * REPR_EPSILON
  }

  function Quantize(a: Decimal): (r: Decimal) {
    if a > MAX - REPR_EPSILON / 2 then MAX else EpsilonRound(a)
  }

  /** What the parser can return. */
  predicate OnGrid(a: Decimal) {
    a % REPR_EPSILON == 0 || a == MAX
  }

  /** Quantizing lands on the grid, at most four units away, keeps order, and
      changes exactly the values that are off the grid. */
  lemma QuantizeLaws(a: Decimal, b: Decimal)
    ensures OnGrid(Quantize(a)) && -4 <= Quantize(a) - a <= 4
    ensures Quantize(a) == a <==> OnGrid(a)
    ensures Quantize(Quantize(a)) == Quantize(a)
    ensures a <= b ==> Quantize(a) <= Quantize(b)
  {
    EpsilonRoundLaws(a, b);
    EpsilonRoundLaws(Quantize(a), b);
  }

  lemma EpsilonRoundLaws(a: nat, b: nat)
    ensures a % 8 == 0 <==> EpsilonRound(a) == a
    ensures a <= b ==> EpsilonRound(a) <= EpsilonRound(b)
    ensures a <= TWO_512 - 5 ==> EpsilonRound(a) <= TWO_512 - 8
  {}

  // ---- Powers of ten ----

  lemma PowTenDouble(e: nat, v: nat)
    requires Pow(10, e) == v
    ensures Pow(10, 2 * e) == v * v
  {
    PowAdd(10, e, e);
  }

  lemma PowTenAt128(e: nat)
    requires e == 128
    ensures Pow(10, e) == 100000000000000000000000000000000000000000000000000000000000000000000000000000000000000000000000000000000000000000000000000000000
    ensures Pow(10, e / 8) == 10000000000000000 && Pow(10, e / 16) == 100000000
  {
    var one := e / 128;
    assert Pow(10, one) == 10;
    PowTenDouble(one, 10);
    PowTenDouble(2 * one, 100);
    PowTenDouble(4 * one, 10000);
    PowTenDouble(8 * one, 100000000);
    PowTenDouble(16 * one, 10000000000000000);
    PowTenDouble(32 * one, 100000000000000000000000000000000);
    PowTenDouble(64 * one, 10000000000000000000000000000000000000000000000000000000000000000);
  }

  lemma {:induction false} PowTenFits(e: nat)
    requires e <= FRACTIONAL_DECIMAL_DIGITS + WHOLE_DECIMAL_DIGITS
    ensures Pow(10, e) < TWO_512
  {
    var n: nat := FRACTIONAL_DECIMAL_DIGITS + 90;
    PowTenAt128(n);
    PowAdd(10, n, n / 8);
    PowAdd(10, n + n / 8, n / 16);
    PowAdd(10, n + n / 8 + n / 16, 1);
    assert Pow(10, 1) == 10;
    PowMonotone(10, e, n + n / 8 + n / 16 + 1);
  }

  /** Square-and-multiply. It reads exponent 0 as 1; its caller guards that. */
  method U512Pow10(exponent: nat) returns (r: nat)
    requires Pow(10, Max(exponent, 1)) < TWO_512
    ensures r == Pow(10, Max(exponent, 1))
  {
    var e, x, y := exponent, 10, 1;
    while e > 1
      invariant x > 0 && y > 0
      invariant Max(e, 1) <= Max(exponent, 1)
      invariant Pow(x, Max(e, 1)) * y == Pow(10, Max(exponent, 1))
    {
      PowSplit(x, e);
      if e % 2 == 1 {
        StepOdd(x, y, e);
        assert y * x < TWO_512;
        y := y * x;
      } else {
        StepEven(x, y, e);
      }
      assert x * x < TWO_512;
      x := x * x;
      e := e / 2;
    }
    assert Pow(x, 1) == x;
    r := x * y;
  }

  lemma PowSplit(x: nat, e: nat)
    requires e > 1
    ensures Pow(x, e) == Pow(x * x, e / 2) * (if e % 2 == 1 then x else 1)
  {
    PowSquare(x, e / 2);
    if e % 2 == 1 {
      assert Pow(x, e) == x * Pow(x, e - 1);
    }
  }

  lemma StepOdd(x: nat, y: nat, e: nat)
    requires x > 0 && y > 0 && e > 1 && e % 2 == 1
    requires Pow(x, e) * y < TWO_512
    ensures Pow(x, e) * y == Pow(x * x, e / 2) * (y * x)
    ensures x * x < TWO_512 && y * x < TWO_512
  {
    PowSplit(x, e);
    var p := Pow(x * x, e / 2);
    MulAssoc(p, x, y);
    PowPositive(x * x, e / 2 - 1);
    var q := Pow(x * x, e / 2 - 1);
    assert p == x * x * q;
    MulMono(1, q, x * x);
    MulMono(x * x, p, y * x);
    MulMono(1, y * x, x * x);
    MulMono(1, x * x, y * x);
  }

  lemma StepEven(x: nat, y: nat, e: nat)
    requires x > 0 && y > 0 && e > 1 && e % 2 == 0
    requires Pow(x, e) * y < TWO_512
    ensures Pow(x, e) * y == Pow(x * x, e / 2) * y
    ensures x * x < TWO_512
  {
    PowSplit(x, e);
    var p := Pow(x * x, e / 2);
    PowPositive(x * x, e / 2 - 1);
    var q := Pow(x * x, e / 2 - 1);
    assert p == x * x * q;
    MulMono(1, q, x * x);
    MulMono(1, y, p);
  }

  function MulPow10(a: Decimal, exponent: int): (r: Option<Decimal>) {
    if exponent == 0 || a == 0 then Some(a)
    else if Max(exponent, -exponent) > WHOLE_DECIMAL_DIGITS + FRACTIONAL_DECIMAL_DIGITS then None
    else if exponent > 0 then
      MulInt(a, Pow(10, exponent))
    else
      ShrunkByPow10(a, -exponent);
      var shrunk := a / Pow(10, -exponent);
      if shrunk != 0 then Some(shrunk) else None
  }

  /** The scaling with its power of ten: under the guard the power never overflows, and
      the power of exponent zero is never asked for. */
  method ComputeMulPow10(a: Decimal, exponent: int) returns (r: Option<Decimal>)
    ensures r == MulPow10(a, exponent)
  {
    if exponent == 0 || a == 0 {
      return Some(a);
    }
    var size := if exponent < 0 then -exponent else exponent;
    if size > WHOLE_DECIMAL_DIGITS + FRACTIONAL_DECIMAL_DIGITS {
      return None;
    }
    PowTenFits(size);
    var operand := U512Pow10(size);
    PowPositive(10, size);
    hide Pow;
    if exponent > 0 {
      r := MulInt(a, operand);
    } else {
      DivShrinks(a, operand);
      var shrunk := a / operand;
      r := if shrunk != 0 then Some(shrunk) else None;
    }
  }

  /** Scaling up is exact, scaling down is the floor, and a result of zero is
      only given for zero. */
  lemma MulPow10Scales(a: Decimal, exponent: int)
    requires MulPow10(a, exponent).Some?
    ensures exponent >= 0 ==> MulPow10(a, exponent).value == a * Pow(10, exponent)
    ensures exponent < 0 ==>
              && Pow(10, -exponent) > 0
              && MulPow10(a, exponent).value == a / Pow(10, -exponent)
    ensures MulPow10(a, exponent).value == 0 ==> a == 0
  {
    if exponent < 0 {
      PowPositive(10, -exponent);
      if a == 0 {
        assert 0 / Pow(10, -exponent) == 0;
      }
    } else {
      PowPositive(10, exponent);
      if a > 0 {
        MulMono(1, Pow(10, exponent), a);
      }
    }
  }

  lemma ShrunkByPow10(a: nat, e: nat)
    ensures Pow(10, e) > 0 && a / Pow(10, e) <= a
  {
    PowPositive(10, e);
    DivShrinks(a, Pow(10, e));
  }
}
