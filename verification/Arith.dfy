/**
 Integer arithmetic shared by the fixed-point and ledger models: powers,
 and the few facts about floor division that the source's rounding relies on.
 */
module Arith {

  datatype Option<+T> = None | Some(value: T)

  const TWO_128: nat := 0x1_00000000000000000000000000000000
  const TWO_256: nat := 0x1_00000000000000000000000000000000_00000000000000000000000000000000
  const TWO_384: nat :=
    0x1_00000000000000000000000000000000_00000000000000000000000000000000_00000000000000000000000000000000
  const TWO_512: nat :=
    0x1_00000000000000000000000000000000_00000000000000000000000000000000_00000000000000000000000000000000_00000000000000000000000000000000

  // Bit widths are named so that powers of them are not unfolded.
  const BITS_128: nat := 128
  const BITS_256: nat := 256
  const BITS_384: nat := 384
  const BITS_512: nat := 512

  const U32_MAX: nat := 0xffff_ffff

  function RemoveAt<T>(xs: seq<T>, k: nat): (r: seq<T>)
    requires k < |xs|
  {
    xs[..k] + xs[k + 1..]
  }

  function Min(a: int, b: int): int {
    if a <= b then a else b
  }

  function Max(a: int, b: int): int {
    if a >= b then a else b
  }

  // ---- Powers ----

  function Pow(b: nat, e: nat): (r: nat) {
    if e == 0 then 1 else b * Pow(b, e - 1)
  }

  lemma {:induction false} PowPositive(b: nat, e: nat)
    requires b > 0
    ensures Pow(b, e) > 0
  {
    if e > 0 {
      PowPositive(b, e - 1);
    }
  }

  lemma {:induction false} PowAdd(b: nat, d: nat, e: nat)
    ensures Pow(b, d + e) == Pow(b, d) * Pow(b, e)
  {
    if d > 0 {
      PowAdd(b, d - 1, e);
      assert Pow(b, d + e) == b * (Pow(b, d - 1) * Pow(b, e));
      MulAssoc(b, Pow(b, d - 1), Pow(b, e));
    }
  }

  lemma {:induction false} PowMonotone(b: nat, d: nat, e: nat)
    requires b > 0 && d <= e
    ensures Pow(b, d) <= Pow(b, e)
  {
    PowAdd(b, d, e - d);
    PowPositive(b, d);
    PowPositive(b, e - d);
    MulMono(1, Pow(b, e - d), Pow(b, d));
  }

  /** Squaring the base halves the exponent. */
  lemma {:induction false} PowSquare(b: nat, e: nat)
    ensures Pow(b * b, e) == Pow(b, 2 * e)
  {
    if e > 0 {
      PowSquare(b, e - 1);
      assert Pow(b, 2 * e) == b * Pow(b, 2 * e - 1) == b * (b * Pow(b, 2 * (e - 1)));
      MulAssoc(b, b, Pow(b, 2 * (e - 1)));
    }
  }

  lemma PowDouble(e: nat, v: nat)
    requires Pow(2, e) == v
    ensures Pow(2, 2 * e) == v * v
  {
    PowAdd(2, e, e);
  }

  lemma Pow2At8(e: nat)
    requires e == 8
    ensures Pow(2, e) == 0x100
  {
    assert Pow(2, 4) == 16;
    PowDouble(4, 16);
  }

  lemma Pow2At128(e: nat)
    requires e == BITS_128
    ensures Pow(2, e) == TWO_128
  {
    var k := e / 16;
    Pow2At8(k);
    PowDouble(k, 0x100);
    PowDouble(2 * k, 0x1_0000);
    PowDouble(4 * k, 0x1_0000_0000);
    PowDouble(8 * k, 0x1_0000_0000_0000_0000);
  }

  lemma Pow2Values()
    ensures Pow(2, BITS_128) == TWO_128
    ensures Pow(2, BITS_256) == TWO_256
    ensures Pow(2, BITS_384) == TWO_384
    ensures Pow(2, BITS_512) == TWO_512
  {
    Pow2At128(BITS_128);
    PowDouble(BITS_128, TWO_128);
    PowAdd(2, BITS_256, BITS_128);
    PowDouble(BITS_256, TWO_256);
  }

  // ---- Multiplication ----

  lemma MulAssoc(a: int, b: int, c: int)
    ensures (a * b) * c == a * (b * c)
  {}

  lemma MulMono(a: int, b: int, c: int)
    requires a <= b && 0 <= c
    ensures a * c <= b * c
  {}

  lemma MulCong(a: int, b: int, c: int)
    requires b == c
    ensures a * b == a * c
  {}

  lemma MulNat(a: nat, b: nat)
    ensures a * b >= 0
  {}

  /** Scaling by a positive factor keeps and reflects order. */
  lemma ScaleLess(a: int, b: int, c: nat)
    requires c > 0
    ensures a < b <==> a * c < b * c
  {
    if a < b {
      MulMono(a + 1, b, c);
    } else {
      MulMono(b, a, c);
    }
  }

  lemma ScaleProduct(y: int, u: int, q: int, v: int)
    ensures (y * u) * (q * v) == (y * q) * (u * v)
  {
    MulAssoc(y * u, q, v);
    MulAssoc(y, u, q);
    MulAssoc(y, q, u);
    MulAssoc(y * q, u, v);
  }

  // ---- Floor division ----

  /** The floor of `a / b` is the only `q` with `b * q <= a < b * (q + 1)`. */
  lemma DivUnique(a: nat, b: nat, q: nat)
    requires b > 0 && b * q <= a < b * (q + 1)
    ensures a / b == q
  {
    var r := a / b;
    DivBounds(a, b);
    if r < q {
      MulMono(r + 1, q, b);
    } else if r > q {
      MulMono(q + 1, r, b);
    }
  }

  lemma DivBounds(a: nat, b: nat)
    requires b > 0
    ensures b * (a / b) <= a < b * (a / b) + b
  {
    assert a == b * (a / b) + a % b;
  }

  lemma DivShrinks(a: nat, b: nat)
    requires b > 0
    ensures a / b <= a
  {
    MulMono(1, b, a);
    DivAtMost(a, b, a);
  }

  lemma DivMono(a: nat, b: nat, d: nat)
    requires d > 0 && a <= b
    ensures a / d <= b / d
  {
    DivBounds(a, d);
    DivBounds(b, d);
    if a / d > b / d {
      MulMono(b / d + 1, a / d, d);
    }
  }

  /** A bound on the product is a bound on the quotient. */
  lemma DivAtMost(a: nat, b: nat, q: nat)
    requires b > 0 && a <= b * q
    ensures a / b <= q
  {
    DivBounds(a, b);
    if a / b > q {
      MulMono(q + 1, a / b, b);
    }
  }

  lemma DivAtLeast(a: nat, b: nat, q: nat)
    requires b > 0 && b * q <= a
    ensures q <= a / b
  {
    DivBounds(a, b);
    if a / b < q {
      MulMono(a / b + 1, q, b);
    }
  }

  /** Common factors cancel. */
  lemma DivCancel(a: nat, b: nat, c: nat)
    requires b > 0 && c > 0
    ensures (a * c) / (b * c) == a / b
  {
    var q := a / b;
    DivBounds(a, b);
    assert b * c > 0;
    assert (b * c) * q == (b * q) * c;
    assert (b * c) * (q + 1) == (b * (q + 1)) * c;
    MulMono(b * q, a, c);
    assert a + 1 <= b * (q + 1);
    MulMono(a + 1, b * (q + 1), c);
    DivUnique(a * c, b * c, q);
  }

  lemma NestedLower(a: nat, b: nat, c: nat, p: nat, q: nat)
    requires b * p <= a && c * q <= p
    ensures (b * c) * q <= a
  {
    MulAssoc(b, c, q);
    MulMono(c * q, p, b);
  }

  lemma NestedUpper(a: nat, b: nat, c: nat, p: nat, q: nat)
    requires a < b * (p + 1) && p + 1 <= c * (q + 1)
    ensures a < (b * c) * (q + 1)
  {
    MulAssoc(b, c, q + 1);
    MulMono(p + 1, c * (q + 1), b);
  }

  /** Dividing twice is dividing by the product. */
  lemma DivDiv(a: nat, b: nat, c: nat)
    requires b > 0 && c > 0
    ensures b * c > 0
    ensures (a / b) / c == a / (b * c)
  {
    DivBounds(a, b);
    DivBounds(a / b, c);
    NestedLower(a, b, c, a / b, a / b / c);
    NestedUpper(a, b, c, a / b, a / b / c);
    DivUnique(a, b * c, a / b / c);
  }

  /** A bracket on a quotient survives scaling the operands. */
  lemma BracketScale(x: nat, y: nat, q: nat, u: nat, v: nat)
    requires u > 0 && v > 0 && y * q <= x < y * (q + 1)
    ensures (y * u) * (q * v) <= x * (u * v) < (y * u) * (q * v + v)
  {
    var w := u * v;
    assert w > 0;
    ScaleProduct(y, u, q, v);
    ScaleProduct(y, u, q + 1, v);
    MulMono(y * q, x, w);
    ScaleLess(x, y * (q + 1), w);
    assert q * v + v == (q + 1) * v;
  }

  /** The remainder of a multiple of `unit`, by a multiple of `unit`, is a
      multiple of `unit` and so leaves room for one more. */
  lemma MultipleRemainder(q: nat, unit: nat, n: nat)
    requires unit > 0 && n > 0
    ensures n * unit > 0
    ensures (q * unit) % (n * unit) + unit <= n * unit
  {
    var whole := n * unit;
    assert whole > 0;
    var d := (q * unit) / whole;
    DivCancel(q, n, unit);
    assert d == q / n;
    DivBounds(q, n);
    assert q * unit == whole * d + (q * unit) % whole;
    assert whole * d == (n * d) * unit by {
      MulAssoc(n, unit, d);
      MulAssoc(n, d, unit);
    }
    assert q + 1 <= n * d + n;
    MulMono(q + 1, n * d + n, unit);
    assert (n * d + n) * unit == (n * d) * unit + whole;
  }

  /** Floors lose at most one unit each when added. */
  lemma DivSum(a: nat, b: nat, d: nat)
    requires d > 0
    ensures a / d + b / d <= (a + b) / d <= a / d + b / d + 1
  {
    DivBounds(a, d);
    DivBounds(b, d);
    SumBracket(a, b, d, a / d, b / d);
    DivAtLeast(a + b, d, a / d + b / d);
    DivBelow(a + b, d, a / d + b / d + 2);
  }

  lemma SumBracket(a: nat, b: nat, d: nat, p: nat, q: nat)
    requires d * p <= a < d * p + d && d * q <= b < d * q + d
    ensures d * (p + q) <= a + b < d * (p + q + 2)
  {}

  lemma DivBelow(a: nat, b: nat, q: nat)
    requires b > 0 && a < b * q
    ensures a / b < q
  {
    DivBounds(a, b);
    if a / b >= q {
      MulMono(q, a / b, b);
    }
  }
}
