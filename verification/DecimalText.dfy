/**
 Decimal text: printing a `Decimal` with `to_fixed`, and parsing it back with `from_str`.
 */
module DecimalText {
  import opened Arith
  import opened FixedPoint

  // ---- Numerals ----

  predicate IsDigit(c: char) {
    '0' <= c <= '9'
  }

  predicate AllDigits(s: string) {
    forall i :: 0 <= i < |s| ==> IsDigit(s[i])
  }

  function DigitChar(d: nat): (c: char)
    requires d < 10
    ensures IsDigit(c) && DigitValue(c) == d
  {
    '0' + d as char
  }

  function DigitValue(c: char): (d: nat)
    requires IsDigit(c)
    ensures d < 10
  {
    (c - '0') as nat
  }

  function TextToNat(s: string): (n: nat)
    requires AllDigits(s)
  {
    if s == [] then 0 else 10 * TextToNat(s[..|s| - 1]) + DigitValue(s[|s| - 1])
  }

  function NatToText(n: nat): (s: string) {
    if n < 10 then [DigitChar(n)] else NatToText(n / 10) + [DigitChar(n % 10)]
  }

  /** A numeral without superfluous leading zeros. */
  predicate CanonicalWhole(s: string) {
    s == "0" || (s != [] && AllDigits(s) && s[0] != '0')
  }

  lemma {:induction false} NatToTextCanonical(n: nat)
    ensures CanonicalWhole(NatToText(n))
    ensures AllDigits(NatToText(n)) && TextToNat(NatToText(n)) == n
    ensures n > 0 ==> NatToText(n)[0] != '0'
  {
    if n >= 10 {
      NatToTextCanonical(n / 10);
      var s := NatToText(n);
      assert s[..|s| - 1] == NatToText(n / 10);
    } else {
      var s := NatToText(n);
      assert s[..|s| - 1] == [];
    }
  }

  lemma {:induction false} TextToNatCons(c: char, s: string)
    requires IsDigit(c) && AllDigits(s)
    ensures AllDigits([c] + s)
    ensures TextToNat([c] + s) == DigitValue(c) * Pow(10, |s|) + TextToNat(s)
  {
    var t := [c] + s;
    if s == [] {
      assert t[..0] == [];
    } else {
      var init := s[..|s| - 1];
      assert TextToNat(s) == 10 * TextToNat(init) + DigitValue(s[|s| - 1]);
      TextToNatCons(c, init);
      assert t[..|t| - 1] == [c] + init;
      assert Pow(10, |s|) == 10 * Pow(10, |init|);
      assert TextToNat(t) == 10 * TextToNat([c] + init) + DigitValue(s[|s| - 1]);
      hide Pow, TextToNat, DigitValue;
      MulAssoc(10, DigitValue(c), Pow(10, |init|));
      MulAssoc(DigitValue(c), 10, Pow(10, |init|));
    }
  }

  // ---- Digits of a fraction ----

  /** Up to `precision` digits of `f / 2^128`, and what remains after them. */
  function Emit(f: nat, precision: nat): (r: (string, nat))
    requires f < TWO_128
    ensures r.1 < TWO_128 && |r.0| <= precision && AllDigits(r.0)
    ensures |r.0| < precision ==> r.1 == 0
    decreases precision
  {
    if precision == 0 || f == 0 then ([], f)
    else
      var (s, rest) := Emit(f * 10 % TWO_128, precision - 1);
      ([DigitChar(f * 10 / TWO_128)] + s, rest)
  }

  function FracString(x: Decimal, precision: nat, roundUp: bool): (r: (string, bool))
    decreases !roundUp
  {
    var plus := Fraction(x) + 2;
    var f := if roundUp then plus % TWO_128 else Fraction(x);
    var (s, rest) := Emit(f, precision);
    if !roundUp && rest != 0 && MAX - 2 >= x then FracString(x, precision, true)
    else (s, roundUp && plus >= TWO_128)
  }

  function TrimZeros(s: string): (r: string) {
    if s != [] && s[|s| - 1] == '0' then TrimZeros(s[..|s| - 1]) else s
  }

  /** Text with at most 38 fractional digits. */
  function ToFixed(x: Decimal, precision: nat): (r: string) {
    var (s, overflow) := FracString(x, Min(precision, FRACTIONAL_DECIMAL_DIGITS), false);
    var trimmed := TrimZeros(s);
    var carried := if overflow then Min(x + ONE, MAX) else x;
    if trimmed == [] then NatToText(Whole(carried))
    else NatToText(Whole(carried)) + "." + trimmed
  }

  // ---- Parsing ----

  /** The sum of the digits' values in units of `2^-256`, each rounded down; the
      first digit of `s` stands at place `place`. */
  function ParseSum(s: string, place: nat): (r: nat)
    requires AllDigits(s)
  {
    if s == [] then 0 else PlaceValue(DigitValue(s[0]), place) + ParseSum(s[1..], place + 1)
  }

  function PlaceValue(d: nat, place: nat): (r: nat) {
    PowPositive(10, place);
    d * TWO_256 / Pow(10, place)
  }

  function IndexOf(s: string, c: char): (i: nat)
    ensures i <= |s| && (forall j :: 0 <= j < i ==> s[j] != c)
    ensures i < |s| ==> s[i] == c
  {
    if s == [] || s[0] == c then 0 else 1 + IndexOf(s[1..], c)
  }

  predicate FractionAccepted(frac: string) {
    frac != [] && |frac| <= FRACTIONAL_DECIMAL_DIGITS && AllDigits(frac)
  }

  /** Joins a whole part and the digits' sum; past the maximum it saturates. */
  function Join(whole: nat, sum: nat): (r: Decimal)
    requires whole < TWO_384
  {
    Min(whole * TWO_128 + EpsilonRound(sum / TWO_128), MAX)
  }

  function FromText(s: string): (r: Option<Decimal>) {
    var dot := IndexOf(s, '.');
    var whole := s[..dot];
    if !CanonicalWhole(whole) then None
    else if dot < |s| && !FractionAccepted(s[dot + 1..]) then None
    else if TextToNat(whole) >= TWO_384 then None
    else if dot == |s| then Some(TextToNat(whole) * TWO_128)
    else Some(Join(TextToNat(whole), ParseSum(s[dot + 1..], 1)))
  }

  // ---- The printed digits ----

  /** The numerator over `10^38` that a string of at most 38 digits stands for. */
  function Numerator38(s: string): (n: nat)
    requires AllDigits(s) && |s| <= 38
  {
    MulNat(TextToNat(s), Pow(10, 38 - |s|));
    TextToNat(s) * Pow(10, 38 - |s|)
  }

  lemma {:induction false} EmitDivides(f: nat, precision: nat)
    requires f < TWO_128
    ensures var (s, rest) := Emit(f, precision);
            f * Pow(10, |s|) == TextToNat(s) * TWO_128 + rest
    decreases precision
  {
    if precision > 0 && f > 0 {
      var g, d := f * 10 % TWO_128, f * 10 / TWO_128;
      EmitDivides(g, precision - 1);
      var (t, rest) := Emit(g, precision - 1);
      TextToNatCons(DigitChar(d), t);
      EmitStep(f, g, d, Pow(10, |t|), TextToNat(t), rest);
      assert Pow(10, |t| + 1) == 10 * Pow(10, |t|);
    }
  }

  lemma EmitStep(f: nat, g: nat, d: nat, p: nat, n: nat, rest: nat)
    requires f * 10 == d * TWO_128 + g && g * p == n * TWO_128 + rest
    ensures f * (10 * p) == (d * p + n) * TWO_128 + rest
  {
    calc {
      f * (10 * p);
      (f * 10) * p;
      (d * TWO_128 + g) * p;
      d * p * TWO_128 + g * p;
    }
  }

  lemma {:induction false} TrimKeepsNumerator(s: string)
    requires AllDigits(s) && |s| <= 38
    ensures |TrimZeros(s)| <= |s| && AllDigits(TrimZeros(s))
    ensures Numerator38(TrimZeros(s)) == Numerator38(s)
  {
    if s != [] && s[|s| - 1] == '0' {
      var init := s[..|s| - 1];
      TrimKeepsNumerator(init);
      assert Pow(10, 38 - |init|) == 10 * Pow(10, 38 - |s|);
      assert TextToNat(s) == 10 * TextToNat(init);
      MulAssoc(10, TextToNat(init), Pow(10, 38 - |s|));
      MulAssoc(TextToNat(init), 10, Pow(10, 38 - |s|));
    }
  }

  lemma PowTenAt38(e: nat)
    requires e == 38
    ensures Pow(10, e) == 100000000000000000000000000000000000000
  {
    assert Pow(10, 2) == 100;
    assert Pow(10, 4) == 10000;
    PowTenDouble(4, 10000);
    PowTenDouble(8, 100000000);
    PowTenDouble(16, 10000000000000000);
    PowAdd(10, 4, 2);
    PowAdd(10, 32, 6);
  }

  const TEN_38: nat := 100000000000000000000000000000000000000

  /** Thirty-eight digits are the floor of `f * 10^38 / 2^128`. */
  lemma EmitIsFloor(f: nat)
    requires f < TWO_128
    ensures var (s, rest) := Emit(f, 38);
            f * TEN_38 == Numerator38(s) * TWO_128 + rest
  {
    var (s, rest) := Emit(f, 38);
    EmitDivides(f, 38);
    hide Emit;
    PowAdd(10, |s|, 38 - |s|);
    PowTenAt38(|s| + (38 - |s|));
    PadDigits(f, Pow(10, |s|), TextToNat(s), rest, Pow(10, 38 - |s|));
    if |s| == 38 {
      assert Pow(10, 38 - |s|) == 1;
    }
  }

  lemma PadDigits(f: nat, p: nat, n: nat, rest: nat, pad: nat)
    requires f * p == n * TWO_128 + rest && (rest == 0 || pad == 1)
    requires p * pad == TEN_38
    ensures f * TEN_38 == n * pad * TWO_128 + rest
  {
    MulAssoc(f, p, pad);
    assert f * TEN_38 == (n * TWO_128 + rest) * pad;
    assert (n * TWO_128 + rest) * pad == n * pad * TWO_128 + rest * pad;
  }

  // ---- The parsed digits ----

  /** Rounding every digit down loses less than one unit per digit. */
  lemma {:induction false} ParseSumBracket(s: string, place: nat)
    requires AllDigits(s)
    ensures var scale := Pow(10, place + |s|);
            ParseSum(s, place + 1) * scale <= TextToNat(s) * TWO_256 <= (ParseSum(s, place + 1) + |s|) * scale
    decreases |s|
  {
    hide TextToNat, Pow, PlaceValue, ParseSum, DigitValue;
    if s == [] {
      NoDigits(place);
    } else {
      var t, d := s[1..], DigitValue(s[0]);
      ParseSumBracket(t, place + 1);
      PlaceValueBracket(d, place + 1);
      ConsText(s);
      PowAdd(10, place + 1, |t|);
      ParseSumCons(s, place + 1);
      ParseStep(d, PlaceValue(d, place + 1), Pow(10, place + 1), Pow(10, |t|),
                ParseSum(t, place + 2), TextToNat(t), |t|);
    }
  }

  lemma NoDigits(place: nat)
    ensures ParseSum([], place + 1) == 0 && TextToNat([]) == 0
  {}

  lemma ParseSumCons(s: string, place: nat)
    requires AllDigits(s) && s != []
    ensures ParseSum(s, place) == PlaceValue(DigitValue(s[0]), place) + ParseSum(s[1..], place + 1)
  {}

  lemma PlaceValueBracket(d: nat, place: nat)
    ensures Pow(10, place) * PlaceValue(d, place) <= d * TWO_256
    ensures d * TWO_256 <= Pow(10, place) * PlaceValue(d, place) + Pow(10, place)
  {
    PowPositive(10, place);
    DivBounds(d * TWO_256, Pow(10, place));
  }

  lemma ConsText(s: string)
    requires AllDigits(s) && s != []
    ensures AllDigits(s[1..])
    ensures TextToNat(s) == DigitValue(s[0]) * Pow(10, |s| - 1) + TextToNat(s[1..])
  {
    hide TextToNat, Pow;
    assert s == [s[0]] + s[1..];
    TextToNatCons(s[0], s[1..]);
  }

  lemma ParseStep(d: nat, q: nat, a: nat, b: nat, sum: nat, n: nat, k: nat)
    requires a * q <= d * TWO_256 <= a * q + a
    requires sum * (a * b) <= n * TWO_256 <= (sum + k) * (a * b)
    ensures (q + sum) * (a * b) <= (d * b + n) * TWO_256 <= (q + sum + (k + 1)) * (a * b)
  {
    MulMono(a * q, d * TWO_256, b);
    MulMono(d * TWO_256, a * q + a, b);
    assert (a * q) * b == q * (a * b);
    assert (a * q + a) * b == q * (a * b) + a * b;
    assert (d * TWO_256) * b == d * b * TWO_256;
    assert (q + sum) * (a * b) == q * (a * b) + sum * (a * b);
    assert (q + sum + (k + 1)) * (a * b) == q * (a * b) + a * b + (sum + k) * (a * b);
  }

  /** The parsed sum brackets the exact value of up to 38 digits. */
  lemma ParseSumBracket38(s: string)
    requires AllDigits(s) && |s| <= 38
    ensures ParseSum(s, 1) * TEN_38 <= Numerator38(s) * TWO_256 <= (ParseSum(s, 1) + 38) * TEN_38
  {
    ParseSumBracket(s, 0);
    PowAdd(10, |s|, 38 - |s|);
    PowTenAt38(|s| + (38 - |s|));
    PowPositive(10, 38 - |s|);
    hide TextToNat, Pow, ParseSum;
    PadSum(ParseSum(s, 1), TextToNat(s), |s|, Pow(10, |s|), Pow(10, 38 - |s|));
  }

  lemma PadSum(sum: nat, n: nat, k: nat, p: nat, pad: nat)
    requires k <= 38 && p * pad == TEN_38
    requires sum * p <= n * TWO_256 <= (sum + k) * p
    ensures sum * TEN_38 <= n * pad * TWO_256 <= (sum + 38) * TEN_38
  {
    MulMono(sum * p, n * TWO_256, pad);
    MulMono(n * TWO_256, (sum + k) * p, pad);
    MulAssoc(sum, p, pad);
    MulAssoc(sum + k, p, pad);
    MulCong(sum, p * pad, TEN_38);
    MulCong(sum + k, p * pad, TEN_38);
    assert (n * TWO_256) * pad == n * pad * TWO_256;
  }

  // ---- Round trip ----

  /** If the digits are the floor of `g / 2^128` at 38 places, parsing them gives
      back `g` or up to four units less. */
  lemma ParsedClose(g: nat, n: nat, rest: nat, sum: nat)
    requires g * TEN_38 == n * TWO_128 + rest && rest < TWO_128
    requires sum * TEN_38 <= n * TWO_256 <= (sum + 38) * TEN_38
    ensures g - 4 <= sum / TWO_128 <= g
    ensures rest == 0 ==> g - 1 <= sum / TWO_128
  {
    assert n * TWO_256 == (n * TWO_128) * TWO_128;
  }

  /** What parsing the printed text returns, from the digits that were printed. */
  lemma PrintedParses(whole: nat, s: string)
    requires whole < TWO_384 && AllDigits(s) && |s| <= 38
    ensures var text := if s == [] then NatToText(whole) else NatToText(whole) + "." + s;
            FromText(text) == Some(Join(whole, ParseSum(s, 1)))
  {
    var w := NatToText(whole);
    NatToTextCanonical(whole);
    var text := if s == [] then w else w + "." + s;
    hide NatToText, TextToNat;
    FirstDot(w, s);
    if s == [] {
      assert text[..|w|] == w;
    } else {
      assert text[..|w|] == w && text[|w| + 1..] == s;
    }
  }

  lemma FirstDot(w: string, s: string)
    requires AllDigits(w)
    ensures IndexOf(w, '.') == |w|
    ensures IndexOf(w + "." + s, '.') == |w|
  {
    assert forall k :: 0 <= k < |w| ==> (w + "." + s)[k] == w[k] && IsDigit(w[k]);
    assert (w + "." + s)[|w|] == '.';
  }

  /** The text made of a whole part and the digits of `f`, trimmed. */
  function Printed(whole: nat, f: nat): (text: string)
    requires f < TWO_128
  {
    var trimmed := TrimZeros(Emit(f, 38).0);
    if trimmed == [] then NatToText(whole) else NatToText(whole) + "." + trimmed
  }

  /** Printing 38 digits of `f` and parsing them comes back to `f` or at most
      four units below it, before the result is put on the grid. */
  lemma PrintedClose(whole: nat, f: nat) returns (sum: nat)
    requires whole < TWO_384 && f < TWO_128
    ensures FromText(Printed(whole, f)) == Some(Join(whole, sum))
    ensures f - 4 <= sum / TWO_128 <= f
    ensures Emit(f, 38).1 == 0 ==> f - 1 <= sum / TWO_128
    ensures f >= TWO_128 - 2 ==> sum / TWO_128 == TWO_128 - 4
  {
    var s := Emit(f, 38).0;
    EmitIsFloor(f);
    hide Emit;
    TrimKeepsNumerator(s);
    var t := TrimZeros(s);
    PrintedParses(whole, t);
    ParseSumBracket38(t);
    hide TrimZeros, ParseSum, Numerator38, NatToText, FromText;
    sum := ParseSum(t, 1);
    ParsedClose(f, Numerator38(t), Emit(f, 38).1, sum);
    if f >= TWO_128 - 2 {
      ParsedNearOne(f, Numerator38(t), Emit(f, 38).1, sum);
    }
  }

  lemma ParsedNearOne(g: nat, n: nat, rest: nat, sum: nat)
    requires TWO_128 - 2 <= g < TWO_128
    requires g * TEN_38 == n * TWO_128 + rest && rest < TWO_128
    requires sum * TEN_38 <= n * TWO_256 <= (sum + 38) * TEN_38
    ensures sum / TWO_128 == TWO_128 - 4
  {
    assert n == TEN_38 - 1;
  }

  /** Which digits `to_fixed(38)` prints: those of the fraction itself when they
      are exact or near the maximum, else those of two units more, with a carry. */
  lemma ToFixedCases(x: Decimal)
    ensures var f := Fraction(x);
            var text := ToFixed(x, 38);
            if Emit(f, 38).1 == 0 || x > MAX - 2 then text == Printed(Whole(x), f)
            else if f + 2 < TWO_128 then text == Printed(Whole(x), f + 2)
            else Whole(x) + 1 < TWO_384 && text == Printed(Whole(x) + 1, f + 2 - TWO_128)
  {
    hide Emit, TrimZeros, NatToText;
    var f := Fraction(x);
    if Emit(f, 38).1 != 0 && x <= MAX - 2 {
      assert FracString(x, 38, false) == FracString(x, 38, true);
      if f + 2 >= TWO_128 {
        CarriedWhole(x);
      }
    }
  }

  lemma CarriedWhole(x: Decimal)
    requires x <= MAX - 2 && Fraction(x) + 2 >= TWO_128
    ensures x + ONE < TWO_512 && Whole(x + ONE) == Whole(x) + 1 < TWO_384
  {}

  lemma SplitValue(x: Decimal)
    ensures x == Whole(x) * TWO_128 + Fraction(x) && Whole(x) < TWO_384
  {}

  /** Every value survives printing and parsing to within six units, which is
      inside the documented tolerance of eight; values on the parser's grid
      survive exactly. */
  lemma RoundTrip(x: Decimal)
    ensures FromText(ToFixed(x, 38)).Some?
    ensures var y := FromText(ToFixed(x, 38)).value;
            && -6 <= y - x <= 6
            && (OnGrid(x) ==> y == x)
  {
    var f, w := Fraction(x), Whole(x);
    ToFixedCases(x);
    SplitValue(x);
    hide Emit, ToFixed, Printed, FromText, Whole, Fraction;
    if Emit(f, 38).1 == 0 || x > MAX - 2 {
      var sum := PrintedClose(w, f);
      JoinDirect(x, w, f, sum);
    } else if f + 2 < TWO_128 {
      var sum := PrintedClose(w, f + 2);
      JoinRounded(x, w, f, sum);
    } else {
      var sum := PrintedClose(w + 1, f + 2 - TWO_128);
      JoinCarried(x, w, f, sum);
    }
  }

  /** On the grid, a neighbour by at most two units rounds back. */
  lemma RoundsBack(f: int, v: nat)
    requires f % 8 == 0 && f - 2 <= v <= f + 2
    ensures EpsilonRound(v) == f
  {}

  lemma GridOfFraction(w: nat, f: nat)
    ensures (w * TWO_128 + f) % 8 == f % 8
  {}

  lemma JoinDirect(x: Decimal, w: nat, f: nat, sum: nat)
    requires w < TWO_384 && f < TWO_128 && x == w * TWO_128 + f && sum / TWO_128 <= f
    requires f - 1 <= sum / TWO_128 || (x > MAX - 2 && sum / TWO_128 == TWO_128 - 4)
    ensures -6 <= Join(w, sum) - x <= 6 && (OnGrid(x) ==> Join(w, sum) == x)
  {
    GridOfFraction(w, f);
    if f - 1 <= sum / TWO_128 && f % 8 == 0 {
      RoundsBack(f, sum / TWO_128);
    }
  }

  lemma JoinRounded(x: Decimal, w: nat, f: nat, sum: nat)
    requires w < TWO_384 && f + 2 < TWO_128 && x == w * TWO_128 + f
    requires f - 2 <= sum / TWO_128 <= f + 2
    ensures -6 <= Join(w, sum) - x <= 6 && (OnGrid(x) ==> Join(w, sum) == x)
  {
    GridOfFraction(w, f);
    if f % 8 == 0 {
      RoundsBack(f, sum / TWO_128);
    }
    hide EpsilonRound;
  }

  lemma JoinCarried(x: Decimal, w: nat, f: nat, sum: nat)
    requires w + 1 < TWO_384 && TWO_128 - 2 <= f < TWO_128 && x == w * TWO_128 + f
    requires sum / TWO_128 <= f + 2 - TWO_128
    ensures -6 <= Join(w + 1, sum) - x <= 6 && !OnGrid(x)
  {
    GridOfFraction(w, f);
  }

  /** Whatever the parser returns is on the grid, so printing it is lossless and
      quantizing it changes nothing. */
  lemma ParsedOnGrid(s: string)
    requires FromText(s).Some?
    ensures OnGrid(FromText(s).value)
    ensures FromText(ToFixed(FromText(s).value, 38)) == FromText(s)
    ensures Quantize(FromText(s).value) == FromText(s).value
  {
    hide ParseSum, TextToNat;
    var y := FromText(s).value;
    assert OnGrid(y);
    hide FromText, ToFixed;
    RoundTrip(y);
    QuantizeLaws(y, y);
  }

  // ---- The source's loops ----

  /** The printer's digit loop with its retry. */
  method FractionalPartToDecString(x: Decimal, precision: nat, roundUp: bool)
    returns (s: string, overflow: bool)
    ensures (s, overflow) == FracString(x, precision, roundUp)
    decreases !roundUp
  {
    hide Emit, FracString, DigitChar;
    var f: nat := Fraction(x);
    overflow := false;
    if roundUp {
      var plusTwo := f + 2;
      overflow := plusTwo >= TWO_128;
      f := plusTwo % TWO_128;
    }
    ghost var start: nat := f;
    s := [];
    var i: nat := 0;
    assert [] + Emit(f, precision).0 == Emit(f, precision).0;
    FracStringIs(x, precision, roundUp);
    while i < precision && f != 0
      invariant i <= precision && f < TWO_128
      invariant Emit(start, precision) == (s + Emit(f, precision - i).0, Emit(f, precision - i).1)
      decreases precision - i
    {
      var digit := f * 10 / TWO_128;
      EmitUnfold(f, precision - i);
      ghost var later := Emit(f * 10 % TWO_128, precision - i - 1).0;
      assert s + ([DigitChar(digit)] + later) == s + [DigitChar(digit)] + later;
      s := s + [DigitChar(digit)];
      f := f * 10 % TWO_128;
      i := i + 1;
    }
    EmitDone(f, precision - i);
    assert s + [] == s;
    if !roundUp && f != 0 && MAX - 2 >= x {
      s, overflow := FractionalPartToDecString(x, precision, true);
    }
  }

  lemma FracStringIs(x: Decimal, precision: nat, roundUp: bool)
    ensures var f := if roundUp then (Fraction(x) + 2) % TWO_128 else Fraction(x);
            && f < TWO_128
            && FracString(x, precision, roundUp)
               == if !roundUp && Emit(f, precision).1 != 0 && MAX - 2 >= x then FracString(x, precision, true)
                  else (Emit(f, precision).0, roundUp && Fraction(x) + 2 >= TWO_128)
  {
    hide Emit;
  }

  lemma EmitDone(f: nat, precision: nat)
    requires f < TWO_128 && (f == 0 || precision == 0)
    ensures Emit(f, precision) == ([], f)
  {}

  lemma EmitUnfold(f: nat, precision: nat)
    requires 0 < f < TWO_128 && precision > 0
    ensures f * 10 / TWO_128 < 10
    ensures Emit(f, precision) == ([DigitChar(f * 10 / TWO_128)] + Emit(f * 10 % TWO_128, precision - 1).0,
                                   Emit(f * 10 % TWO_128, precision - 1).1)
  {}

  /** The parser's digit loop, whose `u128` divisor stops growing before it overflows. */
  method ParseFraction(frac: string) returns (fractional: nat)
    requires AllDigits(frac) && |frac| <= FRACTIONAL_DECIMAL_DIGITS
    ensures fractional == ParseSum(frac, 1)
  {
    fractional := 0;
    var divisor := 10;
    var i := 0;
    assert frac[0..] == frac && Pow(10, 1) == 10;
    hide Pow, ParseSum;
    while i < |frac|
      invariant 0 <= i <= |frac|
      invariant divisor > 0 && (i < |frac| ==> divisor == Pow(10, i + 1))
      invariant ParseSum(frac, 1) == fractional + ParseSum(frac[i..], i + 1)
    {
      var digit := DigitValue(frac[i]);
      ParseSumUnfold(frac, i, divisor);
      if digit != 0 {
        fractional := fractional + digit * TWO_256 / divisor;
      }
      if i + 1 < |frac| {
        NextDivisorFits(i + 2);
      }
      if divisor * 10 < TWO_128 {
        divisor := divisor * 10;
      }
      i := i + 1;
    }
  }

  lemma ParseSumUnfold(frac: string, i: nat, divisor: nat)
    requires AllDigits(frac) && i < |frac| && divisor == Pow(10, i + 1) > 0
    ensures ParseSum(frac[i..], i + 1) == DigitValue(frac[i]) * TWO_256 / divisor + ParseSum(frac[i + 1..], i + 2)
    ensures DigitValue(frac[i]) == 0 ==> DigitValue(frac[i]) * TWO_256 / divisor == 0
    ensures ParseSum(frac[|frac|..], |frac| + 1) == 0
  {
    assert frac[i..][1..] == frac[i + 1..];
  }

  lemma NextDivisorFits(e: nat)
    requires 0 < e <= 38
    ensures Pow(10, e) == 10 * Pow(10, e - 1) && Pow(10, e) < TWO_128
  {
    PowMonotone(10, e, 38);
    PowTenAt38(38);
  }
}
