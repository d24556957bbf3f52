/**
 The regular expression that the JSON schema publishes for a `Decimal`, and the
 proof that it accepts exactly the strings the parser accepts.
 */
module SchemaPattern {
  import opened Arith
  import opened DecimalText

  /** The regex constructs the generator writes: a literal character, a class
      `[lo-hi]`, and a repeated digit `[0-9]{min,max}`. */
  datatype Piece = Literal(c: char) | Class(lo: char, hi: char) | Digits(min: nat, max: nat)

  type Branch = seq<Piece>

  ghost predicate Matches(b: Branch, s: string)
    decreases |b|
  {
    if b == [] then s == []
    else match b[0]
      case Literal(c) => s != [] && s[0] == c && Matches(b[1..], s[1..])
      case Class(lo, hi) => s != [] && lo <= s[0] <= hi && Matches(b[1..], s[1..])
      case Digits(min, max) =>
        exists k :: min <= k <= max && k <= |s| && AllDigits(s[..k]) && Matches(b[1..], s[k..])
  }

  ghost predicate Accepts(branches: seq<Branch>, s: string) {
    exists i :: 0 <= i < |branches| && Matches(branches[i], s)
  }

  function Literals(s: string): (b: Branch)
    ensures |b| == |s|
  {
    if s == [] then [] else [Literal(s[0])] + Literals(s[1..])
  }

  // ---- The generator ----

  function LeastDigit(index: nat): char {
    if index == 0 then '1' else '0'
  }

  function Tail(remaining: nat): (b: Branch) {
    if remaining == 0 then []
    else if remaining == 1 then [Class('0', '9')]
    else [Digits(remaining, remaining)]
  }

  /** The branch for numerals that first fall below the maximum at `index`. */
  function BranchBelow(maximum: string, index: nat): (b: Branch)
    requires AllDigits(maximum) && index < |maximum| && maximum[index] > LeastDigit(index)
  {
    var least, digit := LeastDigit(index), maximum[index];
    Literals(maximum[..index])
    + (if digit == least + 1 as char then [Literal(least)] else [Class(least, digit - 1 as char)])
    + Tail(|maximum| - index - 1)
  }

  function BranchesBelow(maximum: string, count: nat): (r: seq<Branch>)
    requires AllDigits(maximum) && count <= |maximum|
  {
    if count == 0 then []
    else if maximum[count - 1] > LeastDigit(count - 1) then
      BranchesBelow(maximum, count - 1) + [BranchBelow(maximum, count - 1)]
    else BranchesBelow(maximum, count - 1)
  }

  const SHORT_BRANCHES: seq<Branch> := [[Literal('0')], [Class('1', '9'), Digits(0, 114)]]

  function WholeBranches(maximum: string, includeMaximum: bool): (r: seq<Branch>)
    requires AllDigits(maximum)
  {
    SHORT_BRANCHES + BranchesBelow(maximum, |maximum|)
    + (if includeMaximum then [Literals(maximum)] else [])
  }

  /** The generator's loop over the digits of the maximum. */
  method DecimalWholePattern(maximum: string, includeMaximum: bool) returns (branches: seq<Branch>)
    requires AllDigits(maximum)
    ensures branches == WholeBranches(maximum, includeMaximum)
  {
    branches := SHORT_BRANCHES;
    for index := 0 to |maximum|
      invariant branches == SHORT_BRANCHES + BranchesBelow(maximum, index)
    {
      var minimum := if index == 0 then '1' else '0';
      var digit := maximum[index];
      if digit > minimum {
        var branch := Literals(maximum[..index]);
        if digit == minimum + 1 as char {
          branch := branch + [Literal(minimum)];
        } else {
          branch := branch + [Class(minimum, digit - 1 as char)];
        }
        branch := branch + Tail(|maximum| - index - 1);
        branches := branches + [branch];
      }
    }
    if includeMaximum {
      branches := branches + [Literals(maximum)];
    }
  }

  // ---- What single branches match ----

  lemma {:induction false} LiteralsMatch(p: string, b: Branch, s: string)
    ensures Matches(Literals(p) + b, s) <==> p <= s && Matches(b, s[|p|..])
  {
    if p == [] {
      assert Literals(p) + b == b;
    } else {
      assert (Literals(p) + b)[1..] == Literals(p[1..]) + b;
      if s != [] {
        LiteralsMatch(p[1..], b, s[1..]);
        assert p <= s <==> p[0] == s[0] && p[1..] <= s[1..] by {
          PrefixCons(p, s);
        }
        if p <= s {
          assert s[1..][|p| - 1..] == s[|p|..];
        }
      }
    }
  }

  lemma PrefixCons(p: string, s: string)
    requires p != [] && s != []
    ensures p <= s <==> p[0] == s[0] && p[1..] <= s[1..]
  {
    if p[0] == s[0] && p[1..] <= s[1..] {
      assert p == [p[0]] + p[1..];
      assert s == [s[0]] + s[1..];
    }
  }

  lemma DigitsMatch(min: nat, max: nat, s: string)
    ensures Matches([Digits(min, max)], s) <==> min <= |s| <= max && AllDigits(s)
  {
    assert [Digits(min, max)][1..] == [];
    if min <= |s| <= max && AllDigits(s) {
      assert s[..|s|] == s && s[|s|..] == [];
    }
    if Matches([Digits(min, max)], s) {
      var k :| min <= k <= max && k <= |s| && AllDigits(s[..k]) && Matches([Digits(min, max)][1..], s[k..]);
      assert s[..k] == s;
    }
  }

  lemma TailMatches(remaining: nat, s: string)
    ensures Matches(Tail(remaining), s) <==> |s| == remaining && AllDigits(s)
  {
    if remaining == 1 {
      assert Tail(remaining)[1..] == [];
    } else {
      DigitsMatch(remaining, remaining, s);
    }
  }

  /** Digit strings of the maximum's length that first differ from it, downwards,
      at `index` (and do not start with a zero). */
  ghost predicate FallsBelowAt(w: string, maximum: string, index: nat) {
    && index < |maximum| == |w| && AllDigits(w)
    && w[..index] == maximum[..index]
    && LeastDigit(index) <= w[index] < maximum[index]
  }

  lemma BranchBelowMatches(maximum: string, index: nat, w: string)
    requires AllDigits(maximum) && index < |maximum| && maximum[index] > LeastDigit(index)
    ensures Matches(BranchBelow(maximum, index), w) <==> FallsBelowAt(w, maximum, index)
  {
    var prefix := maximum[..index];
    var least, digit := LeastDigit(index), maximum[index];
    var middle: Piece :=
      if digit == least + 1 as char then Literal(least) else Class(least, digit - 1 as char);
    var tail := Tail(|maximum| - index - 1);
    assert BranchBelow(maximum, index) == Literals(prefix) + ([middle] + tail);
    LiteralsMatch(prefix, [middle] + tail, w);
    if prefix <= w && |w| > index {
      var rest := w[index..];
      assert ([middle] + tail)[1..] == tail;
      TailMatches(|maximum| - index - 1, rest[1..]);
      assert w == prefix + [w[index]] + rest[1..];
      assert w[..index] == prefix;
    }
    if FallsBelowAt(w, maximum, index) {
      assert prefix <= w;
    }
  }

  lemma {:induction false} BranchesBelowAccept(maximum: string, count: nat, w: string)
    requires AllDigits(maximum) && count <= |maximum|
    ensures Accepts(BranchesBelow(maximum, count), w)
            <==> exists i :: 0 <= i < count && FallsBelowAt(w, maximum, i)
  {
    if count > 0 {
      hide Matches, FallsBelowAt, BranchBelow;
      BranchesBelowAccept(maximum, count - 1, w);
      if maximum[count - 1] > LeastDigit(count - 1) {
        BranchBelowMatches(maximum, count - 1, w);
        AcceptsAppend(BranchesBelow(maximum, count - 1), [BranchBelow(maximum, count - 1)], w);
        AcceptsOne(BranchBelow(maximum, count - 1), w);
      } else {
        NothingBelow(w, maximum, count - 1);
      }
    }
  }

  lemma AcceptsOne(b: Branch, s: string)
    ensures Accepts([b], s) <==> Matches(b, s)
  {
    if Matches(b, s) {
      assert [b][0] == b;
    }
  }

  lemma NothingBelow(w: string, maximum: string, index: nat)
    requires index < |maximum| && maximum[index] <= LeastDigit(index)
    ensures !FallsBelowAt(w, maximum, index)
  {}

  lemma AcceptsAppend(a: seq<Branch>, b: seq<Branch>, s: string)
    ensures Accepts(a + b, s) <==> Accepts(a, s) || Accepts(b, s)
  {
    if Accepts(a, s) {
      var i :| 0 <= i < |a| && Matches(a[i], s);
      assert (a + b)[i] == a[i];
    }
    if Accepts(b, s) {
      var i :| 0 <= i < |b| && Matches(b[i], s);
      assert (a + b)[|a| + i] == b[i];
    }
  }

  /** `0`, and the numerals of up to 115 digits. */
  lemma ShortBranchesAccept(w: string)
    ensures Accepts(SHORT_BRANCHES, w) <==> CanonicalWhole(w) && |w| <= 115
  {
    var zero, short := SHORT_BRANCHES[0], SHORT_BRANCHES[1];
    assert Accepts(SHORT_BRANCHES, w) <==> Matches(zero, w) || Matches(short, w);
    assert Matches(zero, w) <==> w == "0" by {
      assert zero[1..] == [];
      if w != [] && w[1..] == [] {
        assert w == [w[0]];
      }
    }
    assert short[1..] == [Digits(0, 114)];
    if w != [] {
      DigitsMatch(0, 114, w[1..]);
      assert AllDigits(w) <==> IsDigit(w[0]) && AllDigits(w[1..]);
    }
  }

  // ---- Numerals of the maximum's length ----

  lemma {:induction false} TextConcat(a: string, b: string)
    requires AllDigits(a) && AllDigits(b)
    ensures AllDigits(a + b)
    ensures TextToNat(a + b) == TextToNat(a) * Pow(10, |b|) + TextToNat(b)
  {
    if b == [] {
      assert a + b == a;
      assert Pow(10, 0) == 1;
    } else {
      var init, s := b[..|b| - 1], a + b;
      TextConcat(a, init);
      assert s[..|s| - 1] == a + init;
      assert TextToNat(s) == 10 * TextToNat(a + init) + DigitValue(b[|b| - 1]);
      assert TextToNat(b) == 10 * TextToNat(init) + DigitValue(b[|b| - 1]);
      assert Pow(10, |b|) == 10 * Pow(10, |init|);
      hide TextToNat, Pow, DigitValue;
      MulAssoc(10, TextToNat(a), Pow(10, |init|));
      MulAssoc(TextToNat(a), 10, Pow(10, |init|));
    }
  }

  /** A numeral lies between the powers of ten of its length. */
  lemma {:induction false} TextBounds(s: string)
    requires AllDigits(s)
    ensures TextToNat(s) < Pow(10, |s|)
    ensures s != [] && s[0] != '0' ==> Pow(10, |s| - 1) <= TextToNat(s)
  {
    if s != [] {
      TextBounds(s[..|s| - 1]);
      if |s| == 1 {
        assert s[..0] == [];
        assert Pow(10, 0) == 1;
      }
    }
  }

  /** The first differing digit decides the order. */
  lemma FirstDifferenceDecides(a: string, b: string, i: nat)
    requires AllDigits(a) && AllDigits(b) && i < |a| == |b|
    requires a[..i] == b[..i] && a[i] < b[i]
    ensures TextToNat(a) < TextToNat(b)
  {
    hide TextToNat, Pow, DigitValue;
    SplitAtDigit(a, i);
    SplitAtDigit(b, i);
    TextBounds(a[i + 1..]);
    DigitOrder(a[i], b[i]);
    LeadingDigitDecides(DigitValue(a[i]), DigitValue(b[i]), Pow(10, |a| - i - 1),
                        TextToNat(a[i + 1..]), TextToNat(b[i + 1..]));
  }

  lemma DigitOrder(c: char, d: char)
    requires IsDigit(c) && IsDigit(d) && c < d
    ensures DigitValue(c) < DigitValue(d)
  {}

  /** A numeral as what stands before, at and after one of its digits. */
  lemma SplitAtDigit(a: string, i: nat)
    requires AllDigits(a) && i < |a|
    ensures TextToNat(a) == TextToNat(a[..i]) * Pow(10, |a| - i)
                            + (DigitValue(a[i]) * Pow(10, |a| - i - 1) + TextToNat(a[i + 1..]))
  {
    hide TextToNat, Pow, DigitValue;
    var rest := [a[i]] + a[i + 1..];
    assert a == a[..i] + rest;
    TextToNatCons(a[i], a[i + 1..]);
    TextConcat(a[..i], rest);
  }

  lemma LeadingDigitDecides(d: nat, e: nat, scale: nat, x: nat, y: nat)
    requires d < e && x < scale
    ensures d * scale + x < e * scale + y
  {
    MulMono(d + 1, e, scale);
  }

  /** Of two digit strings of one length, either they are equal or one of them
      falls below the other at the first difference. */
  lemma {:induction false} FirstDifference(a: string, b: string) returns (i: nat)
    requires |a| == |b|
    ensures i <= |a| && a[..i] == b[..i]
    ensures i < |a| ==> a[i] != b[i]
  {
    i := 0;
    while i < |a| && a[i] == b[i]
      invariant i <= |a| && a[..i] == b[..i]
    {
      i := i + 1;
    }
  }

  lemma FallingIsSmaller(maximum: string, w: string, i: nat)
    requires AllDigits(maximum) && maximum != [] && maximum[0] != '0'
    requires FallsBelowAt(w, maximum, i)
    ensures w[0] != '0' && TextToNat(w) < TextToNat(maximum)
  {
    hide TextToNat;
    FirstDifferenceDecides(w, maximum, i);
    assert i > 0 ==> w[0] == w[..i][0] == maximum[..i][0] == maximum[0];
  }

  lemma SmallerIsFalling(maximum: string, w: string) returns (i: nat)
    requires AllDigits(maximum) && |w| == |maximum| && AllDigits(w) && w != [] && w[0] != '0'
    requires TextToNat(w) <= TextToNat(maximum)
    ensures w == maximum || (i < |maximum| && FallsBelowAt(w, maximum, i))
  {
    hide TextToNat;
    i := FirstDifference(w, maximum);
    if i == |w| {
      assert w[..i] == w && maximum[..i] == maximum;
    } else if maximum[i] < w[i] {
      FirstDifferenceDecides(maximum, w, i);
    }
  }

  /** The branches below the maximum, and the maximum itself, are exactly the
      numerals of the maximum's length that do not exceed it. */
  lemma SameLengthAccepted(maximum: string, w: string)
    requires AllDigits(maximum) && maximum != [] && maximum[0] != '0'
    ensures (Accepts(BranchesBelow(maximum, |maximum|), w) || w == maximum)
            <==> |w| == |maximum| && AllDigits(w) && w[0] != '0' && TextToNat(w) <= TextToNat(maximum)
  {
    BranchesBelowAccept(maximum, |maximum|, w);
    hide Accepts, BranchesBelow, TextToNat;
    if i :| 0 <= i < |maximum| && FallsBelowAt(w, maximum, i) {
      FallingIsSmaller(maximum, w, i);
    }
    if |w| == |maximum| && AllDigits(w) && w[0] != '0' && TextToNat(w) <= TextToNat(maximum) {
      var i := SmallerIsFalling(maximum, w);
    }
  }

  // ---- The whole part ----

  lemma {:induction false} TextLength(n: nat, k: nat)
    requires k > 0 && Pow(10, k - 1) <= n < Pow(10, k)
    ensures |NatToText(n)| == k
  {
    assert Pow(10, 1) == 10;
    if k > 1 {
      PowPositive(10, k - 2);
      assert Pow(10, k - 1) == 10 * Pow(10, k - 2);
      TextLength(n / 10, k - 1);
    }
  }

  const MAX_WHOLE: nat := TWO_384 - 1

  /** The largest whole part has 116 digits. */
  lemma MaximumLength(k: nat)
    requires k == 116
    ensures Pow(10, k - 1) < TWO_384 <= Pow(10, k)
  {
    PowTenAt116(k - 1);
    assert Pow(10, k) == 10 * Pow(10, k - 1);
  }

  lemma PowTenAt116(e: nat)
    requires e == 115
    ensures Pow(10, e) == TEN_115
  {
    PowTenAt38(38);
    PowAdd(10, 38, 38);
    PowAdd(10, 76, 38);
    PowAdd(10, 114, 1);
    assert Pow(10, 1) == 10;
  }

  const TEN_115: nat := TEN_38 * TEN_38 * TEN_38 * 10

  /** The generated alternatives accept exactly the canonical numerals that fit. */
  lemma WholeAccepted(w: string)
    ensures AllDigits(NatToText(MAX_WHOLE))
    ensures Accepts(WholeBranches(NatToText(MAX_WHOLE), true), w)
            <==> CanonicalWhole(w) && TextToNat(w) < TWO_384
  {
    var m := NatToText(MAX_WHOLE);
    NatToTextCanonical(MAX_WHOLE);
    MaximumLength(116);
    TextLength(MAX_WHOLE, 116);
    hide NatToText, BranchesBelow, Matches;
    AcceptsAppend(SHORT_BRANCHES + BranchesBelow(m, |m|), [Literals(m)], w);
    AcceptsAppend(SHORT_BRANCHES, BranchesBelow(m, |m|), w);
    AcceptsOne(Literals(m), w);
    LiteralsMatchExactly(m, w);
    ShortBranchesAccept(w);
    SameLengthAccepted(m, w);
    hide Accepts;
    if AllDigits(w) {
      TextBounds(w);
      hide TextToNat;
      if |w| <= 115 {
        PowMonotone(10, |w|, 115);
      } else if |w| > 116 {
        PowMonotone(10, 116, |w| - 1);
      }
    }
  }

  lemma LiteralsMatchExactly(p: string, s: string)
    ensures Matches(Literals(p), s) <==> s == p
  {
    LiteralsMatch(p, [], s);
    assert Literals(p) + [] == Literals(p);
    if p <= s && s[|p|..] == [] {
      assert s == p;
    }
  }

  // ---- The published pattern ----

  /** `^(?:...)(\.[0-9]{1,38})?$` */
  ghost predicate PatternMatches(s: string) {
    WholeAccepted([]);
    exists k :: 0 <= k <= |s|
      && Accepts(WholeBranches(NatToText(MAX_WHOLE), true), s[..k])
      && (s[k..] == [] || (s[k] == '.' && FractionAccepted(s[k + 1..])))
  }

  /** The schema accepts a string exactly when the parser does. */
  lemma PatternIsParser(s: string)
    ensures PatternMatches(s) <==> FromText(s).Some?
  {
    NatToTextCanonical(MAX_WHOLE);
    hide NatToText, TextToNat, Accepts, ParseSum;
    var dot := IndexOf(s, '.');
    if FromText(s).Some? {
      WholeAccepted(s[..dot]);
      assert Accepts(WholeBranches(NatToText(MAX_WHOLE), true), s[..dot]);
    }
    if PatternMatches(s) {
      var k :| 0 <= k <= |s|
        && Accepts(WholeBranches(NatToText(MAX_WHOLE), true), s[..k])
        && (s[k..] == [] || (s[k] == '.' && FractionAccepted(s[k + 1..])));
      WholeAccepted(s[..k]);
      assert forall j :: 0 <= j < k ==> IsDigit(s[..k][j]) && s[..k][j] == s[j];
      assert dot == k;
    }
  }
}
