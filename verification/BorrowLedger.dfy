/**
 The borrowers' side of the market: positions with principal, interest, fees and
 collateral, the market-wide totals kept beside them, and the receipts of loans
 and collateral in flight. The invariant also says how much interest has been
 charged on every finalized snapshot.
 */
module BorrowLedger {
  import opened Arith
  import opened Sums
  import opened Accrual

  datatype BorrowPosition = BorrowPosition(started: Option<nat>, collateral: nat, principal: nat, interest: Accumulator,
                                           fees: nat, inFlight: nat, collateralInFlight: nat)

  /** An amount on its way to an account, to be settled by a callback. */
  datatype Receipt = Receipt(account: Account, amount: nat)

  /** `borrowed`, `inFlight` and `collateral` are the market's own totals. The rest
      is history: `used`, `charged` and `charges`, per snapshot, are the principal on
      which interest was charged, that interest, and the number of positions charged;
      `fees` are the fees owed, `repaid` is the interest paid back, and `dropped` the fractions of a unit lost
      with removed positions. */
  datatype BorrowSide = BorrowSide(positions: map<Account, BorrowPosition>, borrowed: nat, inFlight: nat,
                                   collateral: nat, lending: seq<Receipt>, returning: seq<Receipt>,
                                   used: seq<nat>, charged: seq<nat>, charges: seq<nat>,
                                   fees: nat, repaid: nat, dropped: nat)

  function Owed(p: BorrowPosition): (r: nat) {
    p.principal + p.inFlight
  }

  function Liability(p: BorrowPosition): (r: nat) {
    p.principal + p.inFlight + p.interest.total + p.fees
  }

  predicate Exists(p: BorrowPosition) {
    p.collateral != 0 || Liability(p) != 0 || p.collateralInFlight != 0
  }

  // ---- Figures summed over positions ----

  function Principal(): BorrowPosition -> nat { (p: BorrowPosition) => p.principal }

  function InFlight(): BorrowPosition -> nat { (p: BorrowPosition) => p.inFlight }

  function Collateral(): BorrowPosition -> nat { (p: BorrowPosition) => p.collateral }

  function Fees(): BorrowPosition -> nat { (p: BorrowPosition) => p.fees }

  function CollateralInFlight(): BorrowPosition -> nat { (p: BorrowPosition) => p.collateralInFlight }

  /** What a position owes in snapshot `j`, as long as it has not been charged. */
  function Uncharged(j: nat): BorrowPosition -> nat {
    (p: BorrowPosition) => if p.interest.next <= j then Owed(p) else 0
  }

  /** Interest owed in units of `2^-128`. */
  function InterestOwed(): BorrowPosition -> nat { (p: BorrowPosition) => Exact(p.interest) }

  function ReceiptsOf(xs: seq<Receipt>, a: Account): (r: nat) {
    if xs == [] then 0 else (if xs[0].account == a then xs[0].amount else 0) + ReceiptsOf(xs[1..], a)
  }

  function ReceiptsTotal(xs: seq<Receipt>): (r: nat) {
    if xs == [] then 0 else xs[0].amount + ReceiptsTotal(xs[1..])
  }

  lemma {:induction false} ReceiptRemoved(xs: seq<Receipt>, k: nat, a: Account)
    requires k < |xs|
    ensures ReceiptsOf(xs, a) == ReceiptsOf(RemoveAt(xs, k), a) + (if xs[k].account == a then xs[k].amount else 0)
    ensures ReceiptsTotal(xs) == ReceiptsTotal(RemoveAt(xs, k)) + xs[k].amount
    decreases |xs|
  {
    var r := RemoveAt(xs, k);
    if k == 0 {
      assert r == xs[1..];
    } else {
      assert r[1..] == RemoveAt(xs[1..], k - 1) && r[0] == xs[0];
      ReceiptRemoved(xs[1..], k - 1, a);
    }
  }

  lemma ReceiptAdded(xs: seq<Receipt>, x: Receipt, a: Account)
    ensures ReceiptsOf(xs + [x], a) == ReceiptsOf(xs, a) + (if x.account == a then x.amount else 0)
    ensures ReceiptsTotal(xs + [x]) == ReceiptsTotal(xs) + x.amount
  {
    ReceiptRemoved(xs + [x], |xs|, a);
    assert RemoveAt(xs + [x], |xs|) == xs;
  }

  // ---- The invariant ----

  ghost predicate Sound(p: BorrowPosition, count: nat) {
    1 <= p.interest.next <= count && p.interest.fraction < TWO_128
  }

  ghost predicate AllSound(positions: map<Account, BorrowPosition>, count: nat) {
    forall a :: a in positions ==> Sound(positions[a], count)
  }

  ghost predicate TotalsMatch(b: BorrowSide) {
    && b.borrowed == SumBy(b.positions, Principal())
    && b.inFlight == SumBy(b.positions, InFlight()) == ReceiptsTotal(b.lending)
    && b.collateral == SumBy(b.positions, Collateral())
    && b.fees == SumBy(b.positions, Fees())
  }

  /** Every borrower's amounts in flight are those of the receipts. */
  ghost predicate FlightsMatch(b: BorrowSide) {
    && (forall a :: Part(b.positions, InFlight(), a) == ReceiptsOf(b.lending, a))
    && (forall a :: Part(b.positions, CollateralInFlight(), a) == ReceiptsOf(b.returning, a))
  }

  /** Charged and uncharged principal make up all that was borrowed in a snapshot. */
  ghost predicate OwedAt(b: BorrowSide, snaps: seq<Snapshot>, j: nat) {
    j < |b.used| && j < |snaps| && b.used[j] + SumBy(b.positions, Uncharged(j)) == snaps[j].borrowed
  }

  /** The interest charged falls short of the exact one by less than a unit for each
      position charged, and never exceeds it. */
  ghost predicate ChargedAt(b: BorrowSide, snaps: seq<Snapshot>, j: nat) {
    && 1 <= j < |snaps| && j < |b.used| && j < |b.charged| && j < |b.charges| && TimesOrdered(snaps)
    && b.charged[j] <= Interest(b.used[j], Charge(snaps, j)) <= b.charged[j] + b.charges[j]
  }

  ghost predicate Charging(b: BorrowSide, snaps: seq<Snapshot>) {
    && |b.used| == |b.charged| == |b.charges| == |snaps| && snaps != [] && b.charged[0] == 0
    && (forall j :: 1 <= j < |snaps| ==> OwedAt(b, snaps, j))
    && (forall j :: 1 <= j < |snaps| ==> ChargedAt(b, snaps, j))
  }

  /** Every unit of interest charged is owed, was repaid, or was dropped. */
  ghost predicate Interests(b: BorrowSide) {
    SumBy(b.positions, InterestOwed()) + b.repaid * TWO_128 + b.dropped == Total(b.charged)
  }

  /** No loan in flight is empty. */
  ghost predicate Positive(xs: seq<Receipt>) {
    forall k :: 0 <= k < |xs| ==> xs[k].amount > 0
  }

  ghost predicate BorrowInv(b: BorrowSide, snaps: seq<Snapshot>) {
    && TimesOrdered(snaps) && 1 <= |snaps| <= U32_MAX
    && AllSound(b.positions, |snaps|) && TotalsMatch(b) && FlightsMatch(b) && Charging(b, snaps)
    && Interests(b) && Positive(b.lending)
  }

  // ---- Accrual ----

  function AddOwed(used: seq<nat>, owed: nat, from: nat, upTo: nat): (r: seq<nat>) {
    seq(|used|, j requires 0 <= j < |used| => if from <= j < upTo then used[j] + owed else used[j])
  }

  function AddCharged(charged: seq<nat>, owed: nat, snaps: seq<Snapshot>, from: nat, upTo: nat): (r: seq<nat>)
    requires TimesOrdered(snaps) && 1 <= from && upTo <= |snaps|
  {
    seq(|charged|, j requires 0 <= j < |charged| =>
      if from <= j < upTo then charged[j] + Interest(owed, Charge(snaps, j)) else charged[j])
  }

  /** `accumulate_interest_partial` on the position of `a`. */
  function AccrueBorrow(b: BorrowSide, snaps: seq<Snapshot>, a: Account, limit: nat): (r: BorrowSide)
    requires a in b.positions && TimesOrdered(snaps) && Sound(b.positions[a], |snaps|)
  {
    var p := b.positions[a];
    var q := p.(interest := AccrueInterest(p.interest, Owed(p), snaps, limit));
    AccrueInterestExact(p.interest, Owed(p), snaps, limit);
    b.(positions := b.positions[a := q],
       used := AddOwed(b.used, Owed(p), p.interest.next, q.interest.next),
       charged := AddCharged(b.charged, Owed(p), snaps, p.interest.next, q.interest.next),
       charges := AddOwed(b.charges, if Owed(p) == 0 then 0 else 1, p.interest.next, q.interest.next))
  }

  /** The history grows by exactly what the position's accumulator grows. */
  lemma ChargesAreInterest(charged: seq<nat>, owed: nat, snaps: seq<Snapshot>, from: nat, upTo: nat)
    requires TimesOrdered(snaps) && 1 <= from <= upTo <= |snaps| == |charged|
    ensures Total(AddCharged(charged, owed, snaps, from, upTo)) == Total(charged) + InterestSum(owed, snaps, from, upTo)
  {
    ChargesUpTo(charged, owed, snaps, from, upTo, |charged|);
    assert charged[..|charged|] == charged;
    var r := AddCharged(charged, owed, snaps, from, upTo);
    assert r[..|r|] == r;
  }

  lemma {:induction false} ChargesUpTo(charged: seq<nat>, owed: nat, snaps: seq<Snapshot>, from: nat, upTo: nat, k: nat)
    requires TimesOrdered(snaps) && 1 <= from <= upTo <= |snaps| == |charged| && k <= |charged|
    ensures Total(AddCharged(charged, owed, snaps, from, upTo)[..k])
            == Total(charged[..k]) + InterestSum(owed, snaps, from, Min(k, upTo))
    decreases k
  {
    if k > 0 {
      ChargesUpTo(charged, owed, snaps, from, upTo, k - 1);
      var r := AddCharged(charged, owed, snaps, from, upTo);
      assert r[..k][..k - 1] == r[..k - 1] && charged[..k][..k - 1] == charged[..k - 1];
      assert r[..k][k - 1] == r[k - 1] && charged[..k][k - 1] == charged[k - 1];
      hide Interest, Charge, AddCharged;
      if from < k <= upTo {
        assert r[k - 1] == charged[k - 1] + Interest(owed, Charge(snaps, k - 1));
      } else {
        assert r[k - 1] == charged[k - 1];
      }
    }
  }

  lemma AccrueOwed(b: BorrowSide, snaps: seq<Snapshot>, a: Account, limit: nat, j: nat)
    requires a in b.positions && TimesOrdered(snaps) && Sound(b.positions[a], |snaps|)
    requires OwedAt(b, snaps, j)
    ensures OwedAt(AccrueBorrow(b, snaps, a, limit), snaps, j)
  {
    var p, r := b.positions[a], AccrueBorrow(b, snaps, a, limit);
    AccrueInterestExact(p.interest, Owed(p), snaps, limit);
    SumUpdate(b.positions, Uncharged(j), a, r.positions[a]);
    hide AccrueInterest, SumBy, AddCharged;
  }

  lemma AccrueCharged(b: BorrowSide, snaps: seq<Snapshot>, a: Account, limit: nat, j: nat)
    requires a in b.positions && TimesOrdered(snaps) && Sound(b.positions[a], |snaps|)
    requires ChargedAt(b, snaps, j)
    ensures ChargedAt(AccrueBorrow(b, snaps, a, limit), snaps, j)
  {
    AccrueInterestExact(b.positions[a].interest, Owed(b.positions[a]), snaps, limit);
    InterestAdds(b.used[j], Owed(b.positions[a]), Charge(snaps, j));
    hide AccrueInterest, Interest, Charge;
  }

  lemma AccrueTotals(b: BorrowSide, snaps: seq<Snapshot>, a: Account, limit: nat)
    requires a in b.positions && TimesOrdered(snaps) && Sound(b.positions[a], |snaps|)
    requires TotalsMatch(b) && FlightsMatch(b)
    ensures TotalsMatch(AccrueBorrow(b, snaps, a, limit)) && FlightsMatch(AccrueBorrow(b, snaps, a, limit))
  {
    var q := AccrueBorrow(b, snaps, a, limit).positions[a];
    hide AccrueInterest, SumBy, AddCharged, AddOwed, ReceiptsOf, ReceiptsTotal;
    SumUpdate(b.positions, Principal(), a, q);
    SumUpdate(b.positions, InFlight(), a, q);
    SumUpdate(b.positions, Collateral(), a, q);
    SumUpdate(b.positions, Fees(), a, q);
  }

  lemma AccrueInterests(b: BorrowSide, snaps: seq<Snapshot>, a: Account, limit: nat)
    requires a in b.positions && TimesOrdered(snaps) && Sound(b.positions[a], |snaps|)
    requires Interests(b) && |b.charged| == |snaps|
    ensures Interests(AccrueBorrow(b, snaps, a, limit))
  {
    var p := b.positions[a];
    var q := AccrueBorrow(b, snaps, a, limit).positions[a];
    AccrueInterestExact(p.interest, Owed(p), snaps, limit);
    ChargesAreInterest(b.charged, Owed(p), snaps, p.interest.next, q.interest.next);
    SumUpdate(b.positions, InterestOwed(), a, q);
    hide AccrueInterest, SumBy, AddCharged, AddOwed, Total, InterestSum;
  }

  /** Charging interest keeps the invariant. */
  lemma AccrueBorrowKeeps(b: BorrowSide, snaps: seq<Snapshot>, a: Account, limit: nat)
    requires BorrowInv(b, snaps) && a in b.positions
    ensures Sound(b.positions[a], |snaps|)
    ensures BorrowInv(AccrueBorrow(b, snaps, a, limit), snaps)
  {
    var r := AccrueBorrow(b, snaps, a, limit);
    AccrueInterestExact(b.positions[a].interest, Owed(b.positions[a]), snaps, limit);
    hide AccrueInterest, OwedAt, ChargedAt, TotalsMatch, FlightsMatch;
    AccrueTotals(b, snaps, a, limit);
    AccrueInterests(b, snaps, a, limit);
    hide Interests;
    forall j | 1 <= j < |snaps| ensures OwedAt(r, snaps, j) {
      AccrueOwed(b, snaps, a, limit, j);
    }
    forall j | 1 <= j < |snaps| ensures ChargedAt(r, snaps, j) {
      AccrueCharged(b, snaps, a, limit, j);
    }
  }

  // ---- Changing one position ----

  /** The condition under which one position may change, and with it totals and
      receipts: no finalized snapshot is affected. */
  ghost predicate Even(b: BorrowSide, c: BorrowSide, count: nat, a: Account, p: BorrowPosition) {
    && Sound(p, count)
    && (forall j :: 1 <= j < count ==> Uncharged(j)(p) == Part(b.positions, Uncharged(j), a))
    && c.borrowed + Part(b.positions, Principal(), a) == b.borrowed + p.principal
    && c.inFlight + Part(b.positions, InFlight(), a) == b.inFlight + p.inFlight
    && c.collateral + Part(b.positions, Collateral(), a) == b.collateral + p.collateral
    && c.fees + Part(b.positions, Fees(), a) == b.fees + p.fees
    && c.inFlight == ReceiptsTotal(c.lending) && Positive(c.lending)
    && (forall x :: ReceiptsOf(c.lending, x) == if x == a then p.inFlight else ReceiptsOf(b.lending, x))
    && (forall x :: ReceiptsOf(c.returning, x) == if x == a then p.collateralInFlight else ReceiptsOf(b.returning, x))
    && InterestOwed()(p) + c.repaid * TWO_128 + c.dropped
       == Part(b.positions, InterestOwed(), a) + b.repaid * TWO_128 + b.dropped
    && c.positions == b.positions[a := p] && c.used == b.used && c.charged == b.charged && c.charges == b.charges
  }

  lemma SameCharging(b: BorrowSide, c: BorrowSide, snaps: seq<Snapshot>)
    requires Charging(b, snaps) && c.used == b.used && c.charged == b.charged && c.charges == b.charges
    requires forall j :: 1 <= j < |snaps| ==> SumBy(c.positions, Uncharged(j)) == SumBy(b.positions, Uncharged(j))
    ensures Charging(c, snaps)
  {
    hide SumBy, Uncharged, Interest, Charge;
    forall j | 1 <= j < |snaps| ensures OwedAt(c, snaps, j) && ChargedAt(c, snaps, j) {
      assert OwedAt(b, snaps, j) && ChargedAt(b, snaps, j);
    }
  }

  lemma ChangeKeeps(b: BorrowSide, c: BorrowSide, snaps: seq<Snapshot>, a: Account, p: BorrowPosition)
    requires BorrowInv(b, snaps) && Even(b, c, |snaps|, a, p)
    ensures BorrowInv(c, snaps)
  {
    hide SumBy, Uncharged, Charging, Sound, ReceiptsOf, ReceiptsTotal, InterestOwed, Total;
    SumUpdate(b.positions, InterestOwed(), a, p);
    SumUpdate(b.positions, Principal(), a, p);
    SumUpdate(b.positions, InFlight(), a, p);
    SumUpdate(b.positions, Collateral(), a, p);
    SumUpdate(b.positions, Fees(), a, p);
    forall j | 1 <= j < |snaps| ensures SumBy(c.positions, Uncharged(j)) == SumBy(b.positions, Uncharged(j)) {
      SumUpdate(b.positions, Uncharged(j), a, p);
    }
    SameCharging(b, c, snaps);
  }

  /** The side without the position of `a`. */
  function WithoutPosition(b: BorrowSide, a: Account): (r: BorrowSide)
    requires a in b.positions
  {
    b.(positions := b.positions - {a}, dropped := b.dropped + b.positions[a].interest.fraction)
  }

  /** A position with nothing in it can be dropped with no more than a fraction of a unit. */
  lemma DropKeeps(b: BorrowSide, snaps: seq<Snapshot>, a: Account)
    requires BorrowInv(b, snaps) && a in b.positions && !Exists(b.positions[a])
    ensures BorrowInv(WithoutPosition(b, a), snaps)
  {
    var c := WithoutPosition(b, a);
    hide SumBy, Charging, Sound, ReceiptsOf, ReceiptsTotal, Total;
    SumForget(b.positions, Principal(), a);
    SumForget(b.positions, InFlight(), a);
    SumForget(b.positions, Collateral(), a);
    SumForget(b.positions, Fees(), a);
    SumForget(b.positions, CollateralInFlight(), a);
    SumDelete(b.positions, InterestOwed(), a);
    forall j | 1 <= j < |snaps| ensures SumBy(c.positions, Uncharged(j)) == SumBy(b.positions, Uncharged(j)) {
      SumForget(b.positions, Uncharged(j), a);
    }
    SameCharging(b, c, snaps);
  }
}
