/**
 The operations on a borrow position and what each keeps: the repayment
 waterfall, collateral, loans with their two-phase settlement, interest, and the
 finalizing of a snapshot. `None` stands for the source's panics.
 */
module BorrowSteps {
  import opened Arith
  import opened Sums
  import opened Accrual
  import opened BorrowLedger

  // ---- The waterfall ----

  datatype Reduction = Reduction(toFees: nat, toInterest: nat, toPrincipal: nat, toRefund: nat)

  function Monus(a: nat, b: nat): (r: nat) {
    if a < b then 0 else a - b
  }

  function PrincipalPart(principal: nat, amount: nat, minimum: nat): (r: nat) {
    var remaining := Monus(principal, amount);
    if 0 < remaining < minimum then Monus(principal, minimum) else Min(principal, amount)
  }

  /** How a payment is split over fees, interest, principal and refund; `None` where
      one of the source's subtractions would underflow. */
  function Split(p: BorrowPosition, amount: nat, minimum: nat): (r: Option<Reduction>) {
    var toFees := Min(p.fees, amount);
    var toInterest := Min(p.interest.total, amount - toFees);
    var rest := amount - toFees - toInterest;
    var toPrincipal := PrincipalPart(p.principal, rest, minimum);
    if toPrincipal > rest || toPrincipal > p.principal then None
    else Some(Reduction(toFees, toInterest, toPrincipal, rest - toPrincipal))
  }

  /** The principal may stand at zero or at no less than the configured minimum. */
  predicate Allowed(principal: nat, minimum: nat) {
    principal == 0 || principal >= minimum
  }

  /** No subtraction underflows; the payment is split without loss, fees first, then
      interest, then as much principal as leaves an allowed rest. */
  lemma SplitIsExact(p: BorrowPosition, amount: nat, minimum: nat)
    ensures Split(p, amount, minimum).Some?
    ensures var r := Split(p, amount, minimum).value;
            && r.toFees + r.toInterest + r.toPrincipal + r.toRefund == amount
            && r.toFees == Min(p.fees, amount)
            && r.toInterest == Min(p.interest.total, amount - r.toFees)
            && r.toPrincipal <= p.principal
            && (r.toInterest > 0 ==> r.toFees == p.fees)
            && (r.toPrincipal + r.toRefund > 0 ==> r.toFees == p.fees && r.toInterest == p.interest.total)
            && (Allowed(p.principal, minimum) ==> Allowed(p.principal - r.toPrincipal, minimum))
  {}

  /** The principal part is the largest payment that leaves an allowed principal, if
      there is one within the amount. */
  lemma PrincipalPartIsLargest(p: BorrowPosition, amount: nat, minimum: nat, x: nat)
    requires Allowed(p.principal, minimum)
    ensures var r := Split(p, amount, minimum).value;
            x <= p.principal && x <= r.toPrincipal + r.toRefund && Allowed(p.principal - x, minimum) ==>
            x <= r.toPrincipal
  {}

  function Reduced(p: BorrowPosition, r: Reduction): (q: BorrowPosition)
    requires r.toFees <= p.fees && r.toInterest <= p.interest.total && r.toPrincipal <= p.principal
  {
    p.(fees := p.fees - r.toFees, interest := p.interest.(total := p.interest.total - r.toInterest),
       principal := p.principal - r.toPrincipal,
       started := if p.principal == r.toPrincipal then None else p.started)
  }

  /** Everything but the refund comes off the liability. */
  lemma LiabilityReduced(p: BorrowPosition, amount: nat, minimum: nat)
    ensures var r := Split(p, amount, minimum);
            && r.Some? && r.value.toFees <= p.fees && r.value.toInterest <= p.interest.total
            && r.value.toPrincipal <= p.principal
            && Liability(Reduced(p, r.value)) == Liability(p) - (amount - r.value.toRefund)
            && Reduced(p, r.value).collateral == p.collateral && Reduced(p, r.value).inFlight == p.inFlight
  {
    SplitIsExact(p, amount, minimum);
  }

  /** The position after a sequence of payments, and all that was refunded. */
  function PayAll(p: BorrowPosition, amounts: seq<nat>, minimum: nat): (r: (BorrowPosition, nat))
    decreases |amounts|
  {
    if amounts == [] then (p, 0)
    else
      var (q, refunded) := PayAll(p, amounts[..|amounts| - 1], minimum);
      var amount := amounts[|amounts| - 1];
      LiabilityReduced(q, amount, minimum);
      var split := Split(q, amount, minimum).value;
      (Reduced(q, split), refunded + split.toRefund)
  }

  /** Over any sequence of payments nothing is lost between liability and refunds, and
      a principal that is zero or at least the minimum stays so. */
  lemma {:induction false} PaymentsAddUp(p: BorrowPosition, amounts: seq<nat>, minimum: nat)
    ensures var (q, refunded) := PayAll(p, amounts, minimum);
            && Liability(q) + Total(amounts) == Liability(p) + refunded
            && (Allowed(p.principal, minimum) ==> Allowed(q.principal, minimum))
            && q.collateral == p.collateral && q.inFlight == p.inFlight && q.principal <= p.principal
    decreases |amounts|
  {
    if amounts != [] {
      var amount := amounts[|amounts| - 1];
      PaymentsAddUp(p, amounts[..|amounts| - 1], minimum);
      var (q, _) := PayAll(p, amounts[..|amounts| - 1], minimum);
      LiabilityReduced(q, amount, minimum);
      SplitIsExact(q, amount, minimum);
      hide Split;
    }
  }

  /** `reduce_borrow_asset_liability` with its effect on the market's total. */
  function Pay(b: BorrowSide, a: Account, amount: nat, minimum: nat): (r: Option<(BorrowSide, Reduction)>)
    requires a in b.positions
  {
    var p := b.positions[a];
    var r := Split(p, amount, minimum);
    SplitIsExact(p, amount, minimum);
    if r.None? || b.borrowed < r.value.toPrincipal then None
    else
      Some((b.(positions := b.positions[a := Reduced(p, r.value)], borrowed := b.borrowed - r.value.toPrincipal,
               fees := Monus(b.fees, r.value.toFees), repaid := b.repaid + r.value.toInterest),
            r.value))
  }

  /** What the invariant says about one account. */
  lemma AccountParts(b: BorrowSide, snaps: seq<Snapshot>, a: Account)
    requires BorrowInv(b, snaps)
    ensures |snaps| >= 1 && b.inFlight == ReceiptsTotal(b.lending) && Positive(b.lending)
    ensures Part(b.positions, InFlight(), a) == ReceiptsOf(b.lending, a)
    ensures Part(b.positions, CollateralInFlight(), a) == ReceiptsOf(b.returning, a)
    ensures Part(b.positions, Principal(), a) <= b.borrowed
    ensures Part(b.positions, InFlight(), a) <= b.inFlight
    ensures Part(b.positions, Collateral(), a) <= b.collateral
    ensures Part(b.positions, Fees(), a) <= b.fees
    ensures a in b.positions ==> Sound(b.positions[a], |snaps|)
  {
    SumAtLeast(b.positions, Principal(), a);
    SumAtLeast(b.positions, InFlight(), a);
    SumAtLeast(b.positions, Collateral(), a);
    SumAtLeast(b.positions, Fees(), a);
    hide SumBy, Charging, ReceiptsOf, ReceiptsTotal;
  }

  /** Paying never panics: the market has lent at least what the position owes. */
  lemma PayKeeps(b: BorrowSide, snaps: seq<Snapshot>, a: Account, amount: nat, minimum: nat)
    requires BorrowInv(b, snaps) && a in b.positions && b.positions[a].interest.next == |snaps|
    ensures Pay(b, a, amount, minimum).Some?
    ensures var (c, r) := Pay(b, a, amount, minimum).value;
            && BorrowInv(c, snaps) && c.borrowed == b.borrowed - r.toPrincipal
            && c.inFlight == b.inFlight && c.collateral == b.collateral
            && c.fees + r.toFees == b.fees && c.repaid == b.repaid + r.toInterest
  {
    hide BorrowInv, ReceiptsOf, ReceiptsTotal, Split;
    AccountParts(b, snaps, a);
    SplitIsExact(b.positions[a], amount, minimum);
    var (c, r) := Pay(b, a, amount, minimum).value;
    assert Even(b, c, |snaps|, a, c.positions[a]);
    ChangeKeeps(b, c, snaps, a, c.positions[a]);
  }

  // ---- Touching a position ----

  function NewBorrow(count: nat): (p: BorrowPosition) {
    BorrowPosition(None, 0, 0, Accumulator(0, 0, count), 0, 0, 0)
  }

  /** The position, new if need be, with its interest charged up to date. */
  function Charged(b: BorrowSide, snaps: seq<Snapshot>, a: Account): (r: BorrowSide)
    requires TimesOrdered(snaps) && (a in b.positions ==> Sound(b.positions[a], |snaps|))
  {
    if a in b.positions then AccrueBorrow(b, snaps, a, U32_MAX)
    else b.(positions := b.positions[a := NewBorrow(|snaps|)])
  }

  lemma ChargedKeeps(b: BorrowSide, snaps: seq<Snapshot>, a: Account)
    requires BorrowInv(b, snaps)
    ensures a in b.positions ==> Sound(b.positions[a], |snaps|)
    ensures var c := Charged(b, snaps, a);
            && BorrowInv(c, snaps) && a in c.positions && c.positions[a].interest.next == |snaps|
            && c.borrowed == b.borrowed && c.inFlight == b.inFlight && c.collateral == b.collateral
            && c.fees == b.fees && c.repaid == b.repaid
            && c.lending == b.lending && c.returning == b.returning
            && c.positions.Keys == b.positions.Keys + {a}
            && (forall x :: x in b.positions && x != a ==> c.positions[x] == b.positions[x])
  {
    AccountParts(b, snaps, a);
    var c := Charged(b, snaps, a);
    if a in b.positions {
      AccrueBorrowKeeps(b, snaps, a, U32_MAX);
      AccrueInterestExact(b.positions[a].interest, Owed(b.positions[a]), snaps, U32_MAX);
      hide BorrowInv, AccrueInterest, AddOwed, AddCharged;
    } else {
      assert Even(b, c, |snaps|, a, c.positions[a]) by { hide BorrowInv, ReceiptsOf, ReceiptsTotal; }
      ChangeKeeps(b, c, snaps, a, c.positions[a]);
      hide BorrowInv;
    }
  }

  // ---- Collateral ----

  function AddCollateral(b: BorrowSide, a: Account, amount: nat): (r: BorrowSide)
    requires a in b.positions
  {
    b.(positions := b.positions[a := b.positions[a].(collateral := b.positions[a].collateral + amount)],
       collateral := b.collateral + amount)
  }

  function TakeCollateral(b: BorrowSide, a: Account, amount: nat): (r: Option<BorrowSide>)
    requires a in b.positions
  {
    if b.positions[a].collateral < amount || b.collateral < amount then None
    else Some(b.(positions := b.positions[a := b.positions[a].(collateral := b.positions[a].collateral - amount)],
                 collateral := b.collateral - amount))
  }

  /** Collateral on its way out is kept apart until the transfer is known. */
  function SendCollateral(b: BorrowSide, a: Account, amount: nat): (r: Option<BorrowSide>)
    requires a in b.positions
  {
    var t := TakeCollateral(b, a, amount);
    if t.None? then None
    else
      var p := t.value.positions[a];
      Some(t.value.(positions := t.value.positions[a := p.(collateralInFlight := p.collateralInFlight + amount)],
                    returning := b.returning + [Receipt(a, amount)]))
  }

  lemma AddCollateralKeeps(b: BorrowSide, snaps: seq<Snapshot>, a: Account, amount: nat)
    requires BorrowInv(b, snaps) && a in b.positions && b.positions[a].interest.next == |snaps|
    ensures BorrowInv(AddCollateral(b, a, amount), snaps)
  {
    hide BorrowInv, ReceiptsOf, ReceiptsTotal;
    AccountParts(b, snaps, a);
    var c := AddCollateral(b, a, amount);
    assert Even(b, c, |snaps|, a, c.positions[a]);
    ChangeKeeps(b, c, snaps, a, c.positions[a]);
  }

  lemma TakeCollateralKeeps(b: BorrowSide, snaps: seq<Snapshot>, a: Account, amount: nat)
    requires BorrowInv(b, snaps) && a in b.positions && b.positions[a].interest.next == |snaps|
    ensures TakeCollateral(b, a, amount).None? <==> amount > b.positions[a].collateral
    ensures TakeCollateral(b, a, amount).Some? ==> BorrowInv(TakeCollateral(b, a, amount).value, snaps)
  {
    hide BorrowInv, ReceiptsOf, ReceiptsTotal;
    AccountParts(b, snaps, a);
    if amount <= b.positions[a].collateral {
      var c := TakeCollateral(b, a, amount).value;
      assert Even(b, c, |snaps|, a, c.positions[a]);
      ChangeKeeps(b, c, snaps, a, c.positions[a]);
    }
  }

  lemma SendCollateralKeeps(b: BorrowSide, snaps: seq<Snapshot>, a: Account, amount: nat)
    requires BorrowInv(b, snaps) && a in b.positions && b.positions[a].interest.next == |snaps|
    ensures SendCollateral(b, a, amount).None? <==> amount > b.positions[a].collateral
    ensures SendCollateral(b, a, amount).Some? ==> BorrowInv(SendCollateral(b, a, amount).value, snaps)
  {
    hide BorrowInv, ReceiptsOf, ReceiptsTotal;
    AccountParts(b, snaps, a);
    if amount <= b.positions[a].collateral {
      var c := SendCollateral(b, a, amount).value;
      forall x ensures ReceiptsOf(c.returning, x) == ReceiptsOf(b.returning, x) + if x == a then amount else 0 {
        ReceiptAdded(b.returning, Receipt(a, amount), x);
      }
      assert Even(b, c, |snaps|, a, c.positions[a]);
      ChangeKeeps(b, c, snaps, a, c.positions[a]);
    }
  }

  function Dropped(b: BorrowSide, a: Account): (r: BorrowSide) {
    if a in b.positions && !Exists(b.positions[a]) then WithoutPosition(b, a) else b
  }

  lemma DroppedKeeps(b: BorrowSide, snaps: seq<Snapshot>, a: Account)
    requires BorrowInv(b, snaps)
    ensures BorrowInv(Dropped(b, a), snaps)
  {
    hide BorrowInv;
    if a in b.positions && !Exists(b.positions[a]) {
      DropKeeps(b, snaps, a);
    }
  }

  /** Ends the flight of collateral: gone, or back in the position. */
  function SettleCollateral(b: BorrowSide, k: nat, success: bool): (r: Option<BorrowSide>)
    requires k < |b.returning|
  {
    var a, amount := b.returning[k].account, b.returning[k].amount;
    if a !in b.positions || b.positions[a].collateralInFlight < amount then None
    else
      var p := b.positions[a];
      var q := p.(collateralInFlight := p.collateralInFlight - amount);
      var c := b.(returning := RemoveAt(b.returning, k));
      if success then Some(Dropped(c.(positions := b.positions[a := q]), a))
      else Some(c.(positions := b.positions[a := q.(collateral := p.collateral + amount)],
                   collateral := b.collateral + amount))
  }

  lemma SettleCollateralKeeps(b: BorrowSide, snaps: seq<Snapshot>, k: nat, success: bool)
    requires BorrowInv(b, snaps) && k < |b.returning|
    requires b.returning[k].account in b.positions && b.positions[b.returning[k].account].interest.next == |snaps|
    ensures SettleCollateral(b, k, success).Some? && BorrowInv(SettleCollateral(b, k, success).value, snaps)
  {
    hide BorrowInv, ReceiptsOf, ReceiptsTotal, RemoveAt, Dropped;
    var a, amount := b.returning[k].account, b.returning[k].amount;
    AccountParts(b, snaps, a);
    forall x ensures ReceiptsOf(RemoveAt(b.returning, k), x)
                     == ReceiptsOf(b.returning, x) - if x == a then amount else 0 {
      ReceiptRemoved(b.returning, k, x);
    }
    var p := b.positions[a];
    assert p.collateralInFlight >= amount by { ReceiptRemoved(b.returning, k, a); }
    var q := p.(collateralInFlight := p.collateralInFlight - amount,
                collateral := if success then p.collateral else p.collateral + amount);
    var c := b.(returning := RemoveAt(b.returning, k), positions := b.positions[a := q],
                collateral := if success then b.collateral else b.collateral + amount);
    assert Even(b, c, |snaps|, a, q);
    ChangeKeeps(b, c, snaps, a, q);
    DroppedKeeps(c, snaps, a);
    assert SettleCollateral(b, k, success) == Some(if success then Dropped(c, a) else c);
  }

  // ---- Loans ----

  /** A loan on its way out. */
  function Lend(b: BorrowSide, a: Account, amount: nat, fees: nat): (r: BorrowSide)
    requires a in b.positions
  {
    var p := b.positions[a];
    b.(positions := b.positions[a := p.(inFlight := p.inFlight + amount, fees := p.fees + fees)],
       inFlight := b.inFlight + amount, lending := b.lending + [Receipt(a, amount)], fees := b.fees + fees)
  }

  lemma LendKeeps(b: BorrowSide, snaps: seq<Snapshot>, a: Account, amount: nat, fees: nat)
    requires amount > 0
    requires BorrowInv(b, snaps) && a in b.positions && b.positions[a].interest.next == |snaps|
    ensures BorrowInv(Lend(b, a, amount, fees), snaps)
  {
    hide BorrowInv, ReceiptsOf, ReceiptsTotal;
    AccountParts(b, snaps, a);
    var c := Lend(b, a, amount, fees);
    forall x ensures ReceiptsOf(c.lending, x) == ReceiptsOf(b.lending, x) + if x == a then amount else 0 {
      ReceiptAdded(b.lending, Receipt(a, amount), x);
    }
    ReceiptAdded(b.lending, Receipt(a, amount), a);
    assert Even(b, c, |snaps|, a, c.positions[a]);
    ChangeKeeps(b, c, snaps, a, c.positions[a]);
  }

  /** Ends the flight of a loan: it becomes principal, or comes back. Its fees stay. */
  function SettleLoan(b: BorrowSide, k: nat, success: bool, now: nat): (r: Option<BorrowSide>)
    requires k < |b.lending|
  {
    var a, amount := b.lending[k].account, b.lending[k].amount;
    if a !in b.positions || b.positions[a].inFlight < amount || b.inFlight < amount then None
    else
      var p := b.positions[a].(inFlight := b.positions[a].inFlight - amount);
      var c := b.(lending := RemoveAt(b.lending, k), inFlight := b.inFlight - amount);
      if success then
        var q := p.(principal := p.principal + amount,
                    started := if p.started.None? || Liability(p) == 0 then Some(now) else p.started);
        Some(c.(positions := b.positions[a := q], borrowed := b.borrowed + amount))
      else Some(c.(positions := b.positions[a := p]))
  }

  lemma SettleLoanKeeps(b: BorrowSide, snaps: seq<Snapshot>, k: nat, success: bool, now: nat)
    requires BorrowInv(b, snaps) && k < |b.lending|
    requires b.lending[k].account in b.positions && b.positions[b.lending[k].account].interest.next == |snaps|
    ensures SettleLoan(b, k, success, now).Some?
    ensures var c := SettleLoan(b, k, success, now).value;
            && BorrowInv(c, snaps) && c.inFlight == b.inFlight - b.lending[k].amount
            && c.fees == b.fees && c.repaid == b.repaid
            && c.borrowed == b.borrowed + if success then b.lending[k].amount else 0
  {
    hide BorrowInv, ReceiptsOf, ReceiptsTotal, RemoveAt;
    var a, amount := b.lending[k].account, b.lending[k].amount;
    AccountParts(b, snaps, a);
    forall x ensures ReceiptsOf(RemoveAt(b.lending, k), x)
                     == ReceiptsOf(b.lending, x) - if x == a then amount else 0 {
      ReceiptRemoved(b.lending, k, x);
    }
    ReceiptRemoved(b.lending, k, a);
    assert Positive(RemoveAt(b.lending, k)) by { StillPositive(b.lending, k); }
    var c := SettleLoan(b, k, success, now).value;
    assert Even(b, c, |snaps|, a, c.positions[a]);
    ChangeKeeps(b, c, snaps, a, c.positions[a]);
  }

  lemma StillPositive(xs: seq<Receipt>, k: nat)
    requires Positive(xs) && k < |xs|
    ensures Positive(RemoveAt(xs, k))
  {}

  /** A position with something in flight is never dropped, so its callback finds it. */
  lemma FlightHasPosition(b: BorrowSide, snaps: seq<Snapshot>, k: nat)
    requires BorrowInv(b, snaps)
    ensures k < |b.lending| ==> b.lending[k].account in b.positions
    ensures k < |b.returning| && b.returning[k].amount > 0 ==> b.returning[k].account in b.positions
  {
    if k < |b.lending| {
      AccountParts(b, snaps, b.lending[k].account);
      ReceiptRemoved(b.lending, k, b.lending[k].account);
    }
    if k < |b.returning| {
      AccountParts(b, snaps, b.returning[k].account);
      ReceiptRemoved(b.returning, k, b.returning[k].account);
    }
  }

  // ---- Finalizing a snapshot ----

  function Extended(b: BorrowSide): (r: BorrowSide) {
    b.(used := b.used + [0], charged := b.charged + [0], charges := b.charges + [0])
  }

  lemma ExtendedKeeps(b: BorrowSide, snaps: seq<Snapshot>, snap: Snapshot)
    requires BorrowInv(b, snaps) && |snaps| < U32_MAX && snaps[|snaps| - 1].end <= snap.end
    requires snap.borrowed == b.borrowed + b.inFlight
    ensures BorrowInv(Extended(b), snaps + [snap])
  {
    var c, all, count := Extended(b), snaps + [snap], |snaps|;
    assert TimesOrdered(all);
    forall a | a in b.positions ensures Uncharged(count)(b.positions[a])
                                        == Principal()(b.positions[a]) + InFlight()(b.positions[a]) {
      assert Sound(b.positions[a], count);
    }
    SumAdd(b.positions, Principal(), InFlight(), Uncharged(count));
    forall j | 1 <= j < |all| ensures OwedAt(c, all, j) && ChargedAt(c, all, j) {
      if j < count {
        assert OwedAt(b, snaps, j) && ChargedAt(b, snaps, j);
        assert Charge(all, j) == Charge(snaps, j);
      } else {
        InterestAdds(0, 0, Charge(all, j));
      }
      hide SumBy, Uncharged, Interest;
    }
    hide SumBy, OwedAt, ChargedAt, ReceiptsOf, ReceiptsTotal;
  }
}
