/**
 Accounts, and sums of one figure over all positions of an account map.
 */
module Sums {

  type Account(==, !new)

  ghost function SumBy<V>(m: map<Account, V>, f: V -> nat): (r: nat)
    decreases |m|
  {
    if m == map[] then 0 else
      var k :| k in m;
      f(m[k]) + SumBy(m - {k}, f)
  }

  /** The sum does not depend on which account is counted first. */
  lemma {:induction false} SumRemove<V>(m: map<Account, V>, f: V -> nat, k: Account)
    requires k in m
    ensures SumBy(m, f) == f(m[k]) + SumBy(m - {k}, f)
    decreases |m|
  {
    var c :| c in m && SumBy(m, f) == f(m[c]) + SumBy(m - {c}, f);
    if c != k {
      SumRemove(m - {c}, f, k);
      SumRemove(m - {k}, f, c);
      assert m - {c} - {k} == m - {k} - {c};
    }
  }

  /** What a position of `a` contributes, which is nothing when there is none. */
  ghost function Part<V>(m: map<Account, V>, f: V -> nat, a: Account): (r: nat) {
    if a in m then f(m[a]) else 0
  }

  lemma SumUpdate<V>(m: map<Account, V>, f: V -> nat, a: Account, v: V)
    ensures SumBy(m[a := v], f) + Part(m, f, a) == SumBy(m, f) + f(v)
  {
    SumRemove(m[a := v], f, a);
    assert m[a := v] - {a} == m - {a};
    if a in m {
      SumRemove(m, f, a);
    } else {
      assert m - {a} == m;
    }
  }

  lemma SumDelete<V>(m: map<Account, V>, f: V -> nat, a: Account)
    ensures SumBy(m - {a}, f) + Part(m, f, a) == SumBy(m, f)
  {
    if a in m {
      SumRemove(m, f, a);
    } else {
      assert m - {a} == m;
    }
  }

  lemma SumAtLeast<V>(m: map<Account, V>, f: V -> nat, a: Account)
    ensures Part(m, f, a) <= SumBy(m, f)
  {
    SumDelete(m, f, a);
  }

  /** Sums add up when the figures do. */
  lemma {:induction false} SumAdd<V>(m: map<Account, V>, f: V -> nat, g: V -> nat, h: V -> nat)
    requires forall a :: a in m ==> h(m[a]) == f(m[a]) + g(m[a])
    ensures SumBy(m, h) == SumBy(m, f) + SumBy(m, g)
    decreases |m|
  {
    if m != map[] {
      var k :| k in m;
      SumRemove(m, f, k);
      SumRemove(m, g, k);
      SumRemove(m, h, k);
      SumAdd(m - {k}, f, g, h);
    }
  }

  lemma {:induction false} SumZero<V>(m: map<Account, V>, f: V -> nat)
    requires forall a :: a in m ==> f(m[a]) == 0
    ensures SumBy(m, f) == 0
    decreases |m|
  {
    if m != map[] {
      var k :| k in m;
      SumRemove(m, f, k);
      SumZero(m - {k}, f);
    }
  }

  lemma SumEqual<V>(m: map<Account, V>, f: V -> nat, g: V -> nat)
    requires forall a :: a in m ==> f(m[a]) == g(m[a])
    ensures SumBy(m, f) == SumBy(m, g)
  {
    SumAdd(m, g, (v: V) => 0, f);
    SumZero(m, (v: V) => 0);
  }

  /** Dropping a key with nothing in it changes no figure. */
  lemma SumForget<V>(m: map<Account, V>, f: V -> nat, a: Account)
    requires Part(m, f, a) == 0
    ensures SumBy(m - {a}, f) == SumBy(m, f)
    ensures forall b :: Part(m - {a}, f, b) == Part(m, f, b)
  {
    SumDelete(m, f, a);
  }
}
