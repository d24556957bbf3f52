/**
 `2^x` on the fixed-point type: the whole part is a shift, the fractional part
 a truncated Taylor series of `e^(x ln 2)`.
 */
module BinaryExponential {
  import opened Arith
  import opened FixedPoint

  const LN2: Decimal := 0xB172_17F7_D1CF_79AB_C9E3_B398_03F2_F6B0
  const MAX_ITERATIONS: nat := 35

  /** The `n`-th term of the series for numerator `m`, and the sum up to it. */
  function Taylor(m: nat, n: nat): (r: (nat, nat))
    ensures r.1 >= TWO_128
  {
    if n == 0 then (TWO_128, TWO_128)
    else
      var (term, sum) := Taylor(m, n - 1);
      var next := NextTerm(term, m, n);
      (next, sum + next)
  }

  function NextTerm(term: nat, m: nat, n: nat): (r: nat)
    requires n > 0
  {
    MulNat(term, m / n);
    term * (m / n) / TWO_128
  }

  function Numerator(y: Decimal): (m: nat) {
    y * LN2 / TWO_128
  }

  /** What `pow2_frac` computes. */
  function Pow2Frac(y: Decimal): (r: nat) {
    Taylor(Numerator(y), MAX_ITERATIONS).1
  }

  // ---- The series ----

  lemma TaylorUnfold(m: nat, n: nat)
    requires n > 0
    ensures Taylor(m, n).0 == NextTerm(Taylor(m, n - 1).0, m, n)
    ensures Taylor(m, n).1 == Taylor(m, n - 1).1 + Taylor(m, n).0
  {}

  lemma NextTermMonotone(t: nat, u: nat, m: nat, k: nat, n: nat)
    requires n > 0 && t <= u && m <= k
    ensures NextTerm(t, m, n) <= NextTerm(u, k, n)
  {
    DivMono(m, k, n);
    ProductMonotone(t, u, m / n, k / n);
  }

  lemma ProductMonotone(t: nat, u: nat, p: nat, q: nat)
    requires t <= u && p <= q
    ensures 0 <= t * p <= u * q
    ensures t * p / TWO_128 <= u * q / TWO_128
  {
    MulMono(t, u, p);
    MulMono(p, q, u);
    DivMono(t * p, u * q, TWO_128);
  }

  lemma NextTermZero(m: nat, n: nat)
    requires n > 0
    ensures NextTerm(0, m, n) == 0
  {}

  lemma {:induction false} TaylorMonotone(m: nat, k: nat, n: nat)
    requires m <= k
    ensures Taylor(m, n).0 <= Taylor(k, n).0 && Taylor(m, n).1 <= Taylor(k, n).1
  {
    if n == 0 {
      TaylorStart(m);
      TaylorStart(k);
    } else {
      hide Taylor, NextTerm;
      TaylorMonotone(m, k, n - 1);
      TaylorUnfold(m, n);
      TaylorUnfold(k, n);
      NextTermMonotone(Taylor(m, n - 1).0, Taylor(k, n - 1).0, m, k, n);
    }
  }

  /** Once a term is zero, the sum is final. */
  lemma {:induction false} TaylorSettles(m: nat, k: nat, n: nat)
    requires k <= n && Taylor(m, k).0 == 0
    ensures Taylor(m, n) == (0, Taylor(m, k).1)
    decreases n - k
  {
    if k < n {
      TaylorSettles(m, k, n - 1);
      TaylorUnfold(m, n);
      hide Taylor, NextTerm;
      NextTermZero(m, n);
    }
  }

  lemma TaylorStart(m: nat)
    ensures Taylor(m, 0) == (TWO_128, TWO_128)
  {}

  lemma TaylorStep(m: nat, n: nat, divisor: nat, term: nat, sum: nat, next: nat)
    requires n > 0 && n == divisor && Taylor(m, n - 1) == (term, sum)
    requires next == NextTerm(term, m, divisor)
    ensures Taylor(m, n) == (next, sum + next)
  {
    TaylorUnfold(m, n);
  }

  lemma TaylorAtLn2To8(n: nat)
    requires n == 0
    ensures Taylor(LN2, n + 8) == (0x162c0223a5c823fd8ffe606da77c, 0x1fffffe2a8731b17dcd1adf61f46e29a7)
  {
    hide Taylor;
    TaylorStart(LN2);
    TaylorStep(LN2, n + 1, 1, 0x100000000000000000000000000000000, 0x100000000000000000000000000000000, 0xb17217f7d1cf79abc9e3b39803f2f6b0);
    TaylorStep(LN2, n + 2, 2, 0xb17217f7d1cf79abc9e3b39803f2f6b0, 0x1b17217f7d1cf79abc9e3b39803f2f6b0, 0x3d7f7bff058b1d50de2d60dd92e6bf95);
    TaylorStep(LN2, n + 3, 3, 0x3d7f7bff058b1d50de2d60dd92e6bf95, 0x1eef193f6d75a96fca811147596d9b645, 0xe35846b82505fc599d3b15d995e96f7);
    TaylorStep(LN2, n + 4, 4, 0xe35846b82505fc599d3b15d995e96f7, 0x1fd27186259aaf6c241e4c5d330384d3c, 0x276556df749cee539977c16a7dd58a0);
    TaylorStep(LN2, n + 5, 5, 0x276556df749cee539977c16a7dd58a0, 0x1ff9d6dd050f4c5a77b7c41e9d815a5dc, 0x5761ff9e299cc441c5fda69452fb0c);
    TaylorStep(LN2, n + 6, 6, 0x5761ff9e299cc441c5fda69452fb0c, 0x1fff4cfcfef1e626bbd423f906c68a0e8, 0xa184897c363c3b7a58544c3591a0f);
    TaylorStep(LN2, n + 7, 7, 0xa184897c363c3b7a58544c3591a0f, 0x1fffee81886e1c62f74e7c4d52fc1baf7, 0xffe5fe2c458634358a8e643ec734);
    TaylorStep(LN2, n + 8, 8, 0xffe5fe2c458634358a8e643ec734, 0x1ffffe7fe850e0bb5a91d4f639400822b, 0x162c0223a5c823fd8ffe606da77c);
  }

  lemma TaylorAtLn2To16(n: nat)
    requires n == 8
    ensures Taylor(LN2, n + 8) == (0x9c744d73cfc59c91c7f, 0x1ffffffffffffff95dab89435b6aca471)
  {
    hide Taylor;
    TaylorAtLn2To8(n - 8);
    TaylorStep(LN2, n + 1, 9, 0x162c0223a5c823fd8ffe606da77c, 0x1fffffe2a8731b17dcd1adf61f46e29a7, 0x1b5253d395e7c3da4a70e5a4ff9);
    TaylorStep(LN2, n + 2, 10, 0x1b5253d395e7c3da4a70e5a4ff9, 0x1ffffffdfac6eeadc4958840902c879a0, 0x1e4cf5158b8ec9f6fda1d952e7);
    TaylorStep(LN2, n + 3, 11, 0x1e4cf5158b8ec9f6fda1d952e7, 0x1fffffffdf9640067d8227b06a4a1cc87, 0x1e8cac7351bb24c0f57995e47);
    TaylorStep(LN2, n + 4, 12, 0x1e8cac7351bb24c0f57995e47, 0x1ffffffffe22ec79cf3d4c715fc3b2ace, 0x1c3bd650fc2985e2b5687e17);
    TaylorStep(LN2, n + 5, 13, 0x1c3bd650fc2985e2b5687e17, 0x1fffffffffe6a9dedeffe4cf8b1a3a8e5, 0x1816193166d0f96281ac300);
    TaylorStep(LN2, n + 6, 14, 0x1816193166d0f96281ac300, 0x1ffffffffffebff81066b5c8ed9be6be5, 0x1314964d5878a973f14362);
    TaylorStep(LN2, n + 7, 15, 0x1314964d5878a973f14362, 0x1ffffffffffff141753c3d5384dafaf47, 0xe1b7421d82010f33d8ab);
    TaylorStep(LN2, n + 8, 16, 0xe1b7421d82010f33d8ab, 0x1fffffffffffff5ce95e157395ce387f2, 0x9c744d73cfc59c91c7f);
  }

  lemma TaylorAtLn2To24(n: nat)
    requires n == 16
    ensures Taylor(LN2, n + 8) == (0x1351aaf6cb, 0x1ffffffffffffffffffffffff73200740)
  {
    hide Taylor;
    TaylorAtLn2To16(n - 8);
    TaylorStep(LN2, n + 1, 17, 0x9c744d73cfc59c91c7f, 0x1ffffffffffffff95dab89435b6aca471, 0x661112d070969f5587);
    TaylorStep(LN2, n + 2, 18, 0x661112d070969f5587, 0x1fffffffffffffffbebcb64a64d4bf9f8, 0x3ee2ed7b686d2bae6);
    TaylorStep(LN2, n + 3, 19, 0x3ee2ed7b686d2bae6, 0x1ffffffffffffffffd9fa3c5cd41eb4de, 0x24b4fd9706b8c9b5);
    TaylorStep(LN2, n + 4, 20, 0x24b4fd9706b8c9b5, 0x1fffffffffffffffffeaf39f3dad77e93, 0x145acc4b5051358);
    TaylorStep(LN2, n + 5, 21, 0x145acc4b5051358, 0x1fffffffffffffffffff4e6b88fdc91eb, 0xabfe2bc1f04e3);
    TaylorStep(LN2, n + 6, 22, 0xabfe2bc1f04e3, 0x1ffffffffffffffffffffa69b4bfb96ce, 0x56b3eb4dc076);
    TaylorStep(LN2, n + 7, 23, 0x56b3eb4dc076, 0x1fffffffffffffffffffffd4f37495744, 0x29cea2bb931);
    TaylorStep(LN2, n + 8, 24, 0x29cea2bb931, 0x1ffffffffffffffffffffffec21751075, 0x1351aaf6cb);
  }

  lemma TaylorAtLn2To31(n: nat)
    requires n == 24
    ensures Taylor(LN2, n + 7) == (0x0, 0x1fffffffffffffffffffffffffffffff1)
  {
    hide Taylor;
    TaylorAtLn2To24(n - 8);
    TaylorStep(LN2, n + 1, 25, 0x1351aaf6cb, 0x1ffffffffffffffffffffffff73200740, 0x891f7eca);
    TaylorStep(LN2, n + 2, 26, 0x891f7eca, 0x1fffffffffffffffffffffffffc3f860a, 0x3a7d785);
    TaylorStep(LN2, n + 3, 27, 0x3a7d785, 0x1ffffffffffffffffffffffffffe75d8f, 0x180669);
    TaylorStep(LN2, n + 4, 28, 0x180669, 0x1ffffffffffffffffffffffffffff63f8, 0x9841);
    TaylorStep(LN2, n + 5, 29, 0x9841, 0x1fffffffffffffffffffffffffffffc39, 0x3a3);
    TaylorStep(LN2, n + 6, 30, 0x3a3, 0x1ffffffffffffffffffffffffffffffdc, 0x15);
    TaylorStep(LN2, n + 7, 31, 0x15, 0x1fffffffffffffffffffffffffffffff1, 0x0);
  }

  /** The whole series at `ln 2` stays fifteen units short of two. */
  lemma TaylorAtLn2()
    ensures Taylor(LN2, MAX_ITERATIONS).1 == 2 * TWO_128 - 15
  {
    hide Taylor;
    var n := MAX_ITERATIONS - 11;
    TaylorAtLn2To31(n);
    TaylorSettles(LN2, n + 7, MAX_ITERATIONS);
  }

  lemma NumeratorMonotone(x: Decimal, y: Decimal)
    requires x <= y
    ensures Numerator(x) <= Numerator(y)
  {}

  lemma NumeratorAtOne()
    ensures Numerator(ONE) == LN2
  {}

  /** On `[0, 1]` the series is nondecreasing and stays in `[1, 2)`. */
  lemma Pow2FracBounds(x: Decimal, y: Decimal)
    requires x <= y <= ONE
    ensures TWO_128 <= Pow2Frac(x) <= Pow2Frac(y) < 2 * TWO_128
  {
    NumeratorMonotone(x, y);
    NumeratorMonotone(y, ONE);
    NumeratorAtOne();
    hide Taylor, Numerator;
    TaylorMonotone(Numerator(x), Numerator(y), MAX_ITERATIONS);
    TaylorMonotone(Numerator(y), Numerator(ONE), MAX_ITERATIONS);
    TaylorAtLn2();
  }

  /** The source's loop, which stops early once a term vanishes. */
  method ComputePow2Frac(y: Decimal) returns (sum: Decimal)
    requires y <= ONE
    ensures sum == Pow2Frac(y)
  {
    NumeratorIsProduct(y);
    var numerator := Mul(y, LN2).value;
    hide Mul, DivInt, Taylor, NextTerm, Numerator, Pow2Frac;
    var term: Decimal := ONE;
    sum := ONE;
    TaylorStart(numerator);
    var n := 1;
    while n <= 35
      invariant 1 <= n <= 36
      invariant Taylor(numerator, n - 1) == (term, sum)
      invariant term <= ONE
    {
      TermStep(term, numerator, n);
      SumStep(y, n);
      term := Mul(term, DivInt(numerator, n).value).value;
      if term == ZERO {
        SumSettles(y, n);
        return;
      }
      sum := sum + term;
      n := n + 1;
    }
    SumComplete(y);
  }

  /** One pass of the loop computes the next term, without overflow. */
  lemma TermStep(term: Decimal, m: Decimal, n: nat)
    requires term <= ONE && m <= TWO_128 && n > 0
    ensures DivInt(m, n).Some?
    ensures Mul(term, DivInt(m, n).value) == Some(NextTerm(term, m, n))
    ensures NextTerm(term, m, n) <= ONE
  {
    DivShrinks(m, n);
    MulSmallFactors(term, m / n);
    MulMono(m / n, TWO_128, term);
    DivAtMost(term * (m / n), TWO_128, term);
  }

  lemma MulSmallFactors(a: Decimal, b: Decimal)
    requires a <= TWO_128 && b <= TWO_128
    ensures a * b >= 0 && Mul(a, b) == Some(a * b / TWO_128)
  {
    MulMono(a, TWO_128, b);
    MulSmall(a, b);
  }

  lemma NumeratorIsProduct(y: Decimal)
    requires y <= ONE
    ensures Mul(y, LN2) == Some(Numerator(y)) && Numerator(y) <= TWO_128
  {
    MulSmallFactors(y, LN2);
    NumeratorMonotone(y, ONE);
    NumeratorAtOne();
  }

  lemma SumStep(y: Decimal, n: nat)
    requires y <= ONE && 0 < n <= MAX_ITERATIONS
    ensures var m := Numerator(y);
            && Taylor(m, n) == (NextTerm(Taylor(m, n - 1).0, m, n),
                                Taylor(m, n - 1).1 + NextTerm(Taylor(m, n - 1).0, m, n))
            && Taylor(m, n).1 < TWO_512
  {
    TaylorUnfold(Numerator(y), n);
    TaylorSumGrows(Numerator(y), n, MAX_ITERATIONS);
    Pow2FracBounds(y, y);
  }

  lemma SumSettles(y: Decimal, n: nat)
    requires n <= MAX_ITERATIONS && Taylor(Numerator(y), n).0 == 0
    ensures Taylor(Numerator(y), n).1 == Pow2Frac(y)
  {
    TaylorSettles(Numerator(y), n, MAX_ITERATIONS);
  }

  lemma SumComplete(y: Decimal)
    ensures Taylor(Numerator(y), 35).1 == Pow2Frac(y)
  {}

  lemma {:induction false} TaylorSumGrows(m: nat, k: nat, n: nat)
    requires k <= n
    ensures Taylor(m, k).1 <= Taylor(m, n).1
    decreases n
  {
    if k < n {
      TaylorSumGrows(m, k, n - 1);
    }
  }

  // ---- Two to the power ----

  function Pow2Int(exponent: nat): (r: Option<Decimal>) {
    if exponent > 512 - 128 then None else Some(Shl(ONE, exponent))
  }

  /** A 512-bit shift to the left, which drops what does not fit. */
  function Shl(x: nat, k: nat): (r: Decimal) {
    MulNat(x, Pow(2, k));
    x * Pow(2, k) % TWO_512
  }

  function Pow2(x: Decimal): (r: Option<Decimal>) {
    if Whole(x) >= 0x1_0000_0000 then None else
      var scale := Pow2Int(Whole(x));
      if scale.None? then None else
        Pow2FracBounds(Fraction(x), Fraction(x));
        Mul(scale.value, Pow2Frac(Fraction(x)))
  }

  lemma Pow2Below384(e: nat)
    requires e < 384
    ensures 2 * Pow(2, e) <= TWO_384
  {
    Pow2Values();
    PowMonotone(2, e + 1, BITS_384);
  }

  lemma Pow2IntValue(e: nat)
    requires e < 384
    ensures Pow(2, e) * TWO_128 < TWO_512 && Pow2Int(e) == Some(Pow(2, e) * TWO_128)
  {
    Pow2Below384(e);
    hide Pow;
  }

  lemma Pow2IntAt384(e: nat)
    requires e == BITS_384
    ensures Pow2Int(e) == Some(0)
  {
    Pow2Values();
    hide Pow;
  }

  /** Below 384 the power is the shifted series and never aborts. */
  lemma Pow2Value(x: Decimal)
    requires Whole(x) < 384
    ensures Pow2(x) == Some(Pow(2, Whole(x)) * Pow2Frac(Fraction(x)))
  {
    hide Pow2Frac, Pow2Int, Mul, Pow, Whole, Fraction;
    Pow2FracBounds(Fraction(x), Fraction(x));
    Pow2IntValue(Whole(x));
    MulByWhole(Pow(2, Whole(x)), Pow2Frac(Fraction(x)));
    ShiftedFits(Whole(x), Pow2Frac(Fraction(x)));
  }

  lemma ShiftedFits(w: nat, f: nat)
    requires w < 384 && f < 2 * TWO_128
    ensures Pow(2, w) * f < TWO_512
  {
    Pow2Below384(w);
    PowPositive(2, w);
    hide Pow;
    ScaleLess(f, 2 * TWO_128, Pow(2, w));
  }

  /** `2^x` is nondecreasing below 384, also from one integer to the next. */
  lemma Pow2Monotone(x: Decimal, y: Decimal)
    requires x <= y && Whole(y) < 384
    ensures Pow2(x).Some? && Pow2(y).Some? && Pow2(x).value <= Pow2(y).value
  {
    SplitOrder(x, y);
    hide *;
    Pow2Value(x);
    Pow2Value(y);
    if Whole(x) == Whole(y) {
      Pow2FracBounds(Fraction(x), Fraction(y));
    } else {
      Pow2FracBounds(Fraction(x), Fraction(x));
      Pow2FracBounds(Fraction(y), Fraction(y));
      NextPower(Whole(x), Whole(y));
    }
    ScaledOrder(Pow(2, Whole(x)), Pow(2, Whole(y)), Pow2Frac(Fraction(x)), Pow2Frac(Fraction(y)));
  }

  lemma NextPower(v: nat, w: nat)
    requires v < w
    ensures 2 * Pow(2, v) <= Pow(2, w)
  {
    PowMonotone(2, v + 1, w);
  }

  lemma ScaledOrder(p: nat, q: nat, f: nat, g: nat)
    requires (p == q && f <= g) || (2 * p <= q && f < 2 * TWO_128 && TWO_128 <= g)
    ensures p * f <= q * g
  {
    if p == q && f <= g {
      MulMono(f, g, p);
    } else {
      MulMono(f, 2 * TWO_128, p);
      MulMono(TWO_128, g, q);
    }
  }

  lemma Pow2BelowOne(x: Decimal)
    requires x < ONE
    ensures Pow2(x) == Some(Pow2Frac(x))
  {
    BelowOneSplit(x);
    Pow2Value(x);
    assert Pow(2, 0) == 1;
    hide Pow2, Pow2Frac, Whole, Fraction, Pow;
    assert Pow(2, Whole(x)) == 1;
  }

  lemma BelowOneSplit(x: Decimal)
    requires x < ONE
    ensures Whole(x) == 0 && Fraction(x) == x
  {}

  lemma Pow2AtZero()
    ensures Pow2(0) == Some(ONE)
  {
    Pow2BelowOne(0);
    hide Pow2;
    Pow2FracAtZero();
  }

  lemma Pow2FracAtZero()
    ensures Pow2Frac(0) == TWO_128
  {
    TaylorStart(0);
    TaylorUnfold(0, 1);
    hide Taylor, NextTerm;
    FirstTermZero();
    TaylorSettles(0, 1, MAX_ITERATIONS);
  }

  lemma FirstTermZero()
    ensures NextTerm(TWO_128, 0, 1) == 0
  {}

  /** At 384 the shift drops the only set bit and the answer collapses to
      zero; from 385 on there is no answer. */
  lemma Pow2Collapses(x: Decimal)
    ensures Whole(x) == 384 ==> Pow2(x) == Some(0)
    ensures Whole(x) > 384 ==> Pow2(x) == None
  {
    if Whole(x) == 384 {
      Pow2IntAt384(Whole(x));
      Pow2FracBounds(Fraction(x), Fraction(x));
      hide Pow2Frac, Pow2Int, Mul, Whole, Fraction;
      MulSmall(0, Pow2Frac(Fraction(x)));
    }
  }
}
