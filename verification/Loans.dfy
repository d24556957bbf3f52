/**
 What the market promises about loans: how far deposits may be lent, that loan
 callbacks never panic, and what a failed loan leaves behind.
 */
module Loans {
  import opened Arith
  import opened FixedPoint
  import opened Sums
  import opened Accrual
  import opened SupplyLedger
  import opened SupplySteps
  import opened BorrowLedger
  import opened BorrowSteps
  import opened StaticLedger
  import opened Market
  import opened MarketRuns
  import opened Guarantees

  // ---- The usage ratio ----

  lemma RetainedLeast(active: nat, usage: nat, n: nat)
    requires usage <= TWO_128
    ensures Retained(active, usage) <= n <==> (TWO_128 - usage) * active <= n * TWO_128
  {
    MulNat(TWO_128 - usage, active);
    CeilingLeast((TWO_128 - usage) * active, n);
  }

  lemma CeilingLeast(a: nat, n: nat)
    ensures (a + TWO_128 - 1) / TWO_128 <= n <==> a <= n * TWO_128
  {}

  /** A loan is within the available amount exactly when all loans together stay
      within the usage ratio of the active deposits. */
  lemma AvailableExactly(active: nat, borrowed: nat, usage: nat, amount: nat)
    requires usage <= TWO_128 && amount > 0
    ensures amount <= Available(active, borrowed, usage) <==> (borrowed + amount) * TWO_128 <= usage * active
  {
    var r := Retained(active, usage);
    assert (TWO_128 - usage) * active == TWO_128 * active - usage * active;
    if borrowed + amount <= active {
      RetainedLeast(active, usage, active - borrowed - amount);
      hide Retained;
    } else {
      MulMono(usage, TWO_128, active);
      hide Retained;
    }
  }

  /** The figure is the program's own decimal expression. */
  lemma RetainedExpression(active: nat, usage: Decimal)
    requires usage <= ONE && active < TWO_128
    ensures var kept := Sub(ONE, usage);
            && kept.Some? && active * TWO_128 < TWO_512
            && var product := Mul(kept.value, active * TWO_128);
               product.Some? && ToU128Ceil(product.value) == Some(Retained(active, usage))
  {
    var kept: Decimal := ONE - usage;
    assert active * TWO_128 < TWO_512;
    assert kept * active <= active * TWO_128 by { MulMono(kept, TWO_128, active); }
    MulByWhole(active, kept);
    MulCommutes(active * TWO_128, kept);
    assert Mul(kept, active * TWO_128) == Some(active * kept);
    assert active * kept == (TWO_128 - usage) * active;
    hide Mul;
    assert (TWO_128 - usage) * active <= (TWO_128 - 1) * TWO_128;
    CeilingUnique((TWO_128 - usage) * active);
  }

  lemma CeilingUnique(a: Decimal)
    requires a <= (TWO_128 - 1) * TWO_128
    ensures ToU128Ceil(a) == Some((a + TWO_128 - 1) / TWO_128)
  {}

  /** Once a loan is granted, loans made and in flight are within the usage ratio, and
      the borrower owes at least the smallest principal. */
  lemma LoanWithinUsage(s: State, c: Config, a: Account, amount: nat, fees: nat, permitted: bool)
    requires Inv(s, c) && BorrowStart(s, c, a, amount, fees, permitted).Some?
    ensures var t := BorrowStart(s, c, a, amount, fees, permitted).value;
            && (t.borrow.borrowed + t.borrow.inFlight) * TWO_128 <= c.usage * t.supply.active
            && a in t.borrow.positions && Owed(t.borrow.positions[a]) >= c.minimum
  {
    hide SupplyInv, BorrowInv, StaticInv, Guard, Available;
    GuardKeeps(s, c, a);
    AvailableExactly(s.supply.active, s.borrow.borrowed + s.borrow.inFlight, c.usage, amount);
  }

  /** The cash for any amount is there exactly when it, the loans and what static
      accounts drew are together within deposits and all that is set aside. */
  lemma CashForLoan(s: State, c: Config, amount: nat)
    requires Inv(s, c)
    ensures amount <= s.balance <==>
            amount + s.borrow.borrowed + s.borrow.inFlight + s.statics.withdrawn
            <= s.supply.active + TotalIncoming(s.supply.incoming) + PendingToFees(s.supply.pending)
               + s.paid + s.surplus + s.statics.received
  {
    LoansAreCovered(s, c);
    hide Inv, TotalIncoming, PendingToFees;
  }

  // ---- Callbacks ----

  /** The callback of a loan always finds its position and its amounts. */
  lemma LoanCallbackNeverPanics(s: State, c: Config, k: nat, success: bool, now: nat)
    requires Inv(s, c) && k < |s.borrow.lending|
    ensures BorrowEnd(s, c, k, success, now).Some?
  {
    hide SupplyInv, BorrowInv, StaticInv, SettleLoan, Conserved, Funded;
    FlightHasPosition(s.borrow, s.snaps, k);
    var a := s.borrow.lending[k].account;
    assert Guard(s, c, a).Some?;
    GuardKeeps(s, c, a);
    hide Guard;
    SettleLoanKeeps(Guard(s, c, a).value, s.snaps, k, success, now);
  }

  /** The callback of collateral sent panics exactly when the position is gone, which
      only happens to a receipt for nothing. */
  lemma CollateralCallbackPanics(s: State, c: Config, k: nat, success: bool)
    requires Inv(s, c) && k < |s.borrow.returning|
    ensures CollateralEnd(s, c, k, success).None? <==> s.borrow.returning[k].account !in s.borrow.positions
    ensures CollateralEnd(s, c, k, success).None? ==> s.borrow.returning[k].amount == 0
  {
    hide SupplyInv, BorrowInv, StaticInv, SettleCollateral, Conserved, Funded;
    FlightHasPosition(s.borrow, s.snaps, k);
    var a := s.borrow.returning[k].account;
    if a in s.borrow.positions {
      assert Guard(s, c, a).Some?;
      GuardKeeps(s, c, a);
      hide Guard;
      SettleCollateralKeeps(Guard(s, c, a).value, s.snaps, k, success);
    }
  }

  /** A liquidation brings in the lesser of what was sent and the highest price, takes
      exactly the collateral asked for, and everything it brings in beyond the position's
      fees, interest and principal is surplus. */
  lemma LiquidationBringsIn(s: State, c: Config, a: Account, o: Offer)
    requires Inv(s, c) && Liquidate(s, c, a, o).Some?
    ensures var t := Liquidate(s, c, a, o).value;
            && t.balance == s.balance + Min(o.sent, o.most)
            && t.borrow.collateral == s.borrow.collateral - o.seized
            && (s.borrow.borrowed - t.borrow.borrowed) + (t.paid - s.paid) + (t.surplus - s.surplus)
               == Min(o.sent, o.most)
            && t.supply == s.supply && t.statics == s.statics
  {
    hide SupplyInv, BorrowInv, StaticInv, Guard, Seize, Conserved, Funded;
    GuardKeeps(s, c, a);
    var b := Guard(s, c, a).value;
    SeizeKeeps(b, s.snaps, a, o.seized, Recovered(o), c.minimum);
    SeizedCollateral(b, a, o.seized, Recovered(o), c.minimum);
  }

  lemma SeizedCollateral(b: BorrowSide, a: Account, seized: nat, recovered: nat, minimum: nat)
    requires a in b.positions && Seize(b, a, seized, recovered, minimum).Some?
    ensures Seize(b, a, seized, recovered, minimum).value.0.collateral == b.collateral - seized
  {
    hide Split, Reduced, Exists;
  }

  // ---- Failed loans ----

  /** A loan whose transfer fails is taken off the position, whatever happened since it
      was started. Its fees stay, and so does the interest that the loan in flight was
      charged like any principal, for every snapshot finalized in between. */
  lemma FailedLoanLeavesFeesAndInterest(s: State, c: Config, k: nat, now: nat)
    requires Inv(s, c) && k < |s.borrow.lending|
    ensures s.borrow.lending[k].account in s.borrow.positions && BorrowEnd(s, c, k, false, now).Some?
    ensures var a, amount := s.borrow.lending[k].account, s.borrow.lending[k].amount;
            var p, t := s.borrow.positions[a], BorrowEnd(s, c, k, false, now).value;
            && a in t.borrow.positions && 1 <= p.interest.next <= |s.snaps| && amount <= p.inFlight
            && var q := t.borrow.positions[a];
               && q.principal == p.principal && q.inFlight == p.inFlight - amount && q.fees == p.fees
               && Exact(q.interest)
                  == Exact(p.interest) + InterestSum(p.principal + p.inFlight, s.snaps, p.interest.next, |s.snaps|)
               && Liability(q) == Liability(UpToDate(s, a)) - amount
               && t.balance == s.balance + amount && t.borrow.borrowed == s.borrow.borrowed
               && t.supply == s.supply && t.statics == s.statics
  {
    hide SupplyInv, BorrowInv, StaticInv, Conserved, Funded, AccrueInterest, ReceiptsOf, ReceiptsTotal, RemoveAt;
    var a := s.borrow.lending[k].account;
    LoanCallbackNeverPanics(s, c, k, false, now);
    FlightHasPosition(s.borrow, s.snaps, k);
    GuardFields(s, c, a);
    GuardKeeps(s, c, a);
    FlightAmount(s.borrow, s.snaps, k);
    AccrueInterestExact(s.borrow.positions[a].interest, Owed(s.borrow.positions[a]), s.snaps, U32_MAX);
    assert |s.snaps| <= U32_MAX by { CountBounded(s, c); }
    hide Guard, Exact, InterestSum;
  }

  lemma CountBounded(s: State, c: Config)
    requires Inv(s, c)
    ensures |s.snaps| <= U32_MAX
  {
    assert BorrowInv(s.borrow, s.snaps);
  }

  lemma FlightAmount(b: BorrowSide, snaps: seq<Snapshot>, k: nat)
    requires BorrowInv(b, snaps) && k < |b.lending|
    ensures Part(b.positions, InFlight(), b.lending[k].account) >= b.lending[k].amount > 0
  {
    hide Charging, TotalsMatch, Interests;
    AccountParts(b, snaps, b.lending[k].account);
    ReceiptRemoved(b.lending, k, b.lending[k].account);
  }

  /** Within one snapshot nothing but the fees remains. */
  lemma FailedLoanLeavesFees(b: BorrowSide, a: Account, amount: nat, fees: nat, now: nat)
    requires a in b.positions
    ensures var r := SettleLoan(Lend(b, a, amount, fees), |b.lending|, false, now);
            && r.Some? && a in r.value.positions
            && r.value.positions[a] == b.positions[a].(fees := b.positions[a].fees + fees)
            && Liability(r.value.positions[a]) == Liability(b.positions[a]) + fees
            && r.value == b.(positions := b.positions[a := r.value.positions[a]], fees := b.fees + fees)
  {
    var lent := Lend(b, a, amount, fees);
    assert RemoveAt(lent.lending, |b.lending|) == b.lending;
    var r := SettleLoan(lent, |b.lending|, false, now).value;
    assert r.positions == b.positions[a := r.positions[a]];
  }

  // ---- The smallest principal ----

  /** Every principal is zero or at least the minimum. */
  ghost predicate AllAllowed(b: BorrowSide, minimum: nat) {
    forall a :: a in b.positions ==> Allowed(b.positions[a].principal, minimum)
  }

  /** A loan arrives whose position, with it, still has less than the minimum. */
  predicate Undercuts(s: State, c: Config, step: Step) {
    && step.BorrowEnded? && step.success && step.k < |s.borrow.lending|
    && var receipt := s.borrow.lending[step.k];
       receipt.account in s.borrow.positions
       && s.borrow.positions[receipt.account].principal + receipt.amount < c.minimum
  }

  /** No position of `t` has a principal that is not in `b`. */
  ghost predicate NoNewPrincipal(b: BorrowSide, t: BorrowSide) {
    forall a :: a in t.positions ==>
      t.positions[a].principal == 0 || (a in b.positions && t.positions[a].principal == b.positions[a].principal)
  }

  lemma GuardPrincipals(s: State, c: Config, a: Account)
    requires Inv(s, c) && Guard(s, c, a).Some?
    ensures NoNewPrincipal(s.borrow, Guard(s, c, a).value)
    ensures a in s.borrow.positions && a in Guard(s, c, a).value.positions
            && Guard(s, c, a).value.positions[a].principal == s.borrow.positions[a].principal
  {
    hide Inv, Guard, AccrueInterest, Sound;
    GuardFields(s, c, a);
  }

  lemma InterestPrincipals(s: State, c: Config, a: Account, limit: nat)
    requires Inv(s, c)
    ensures ApplyInterest(s, c, a, limit).Some?
    ensures NoNewPrincipal(s.borrow, ApplyInterest(s, c, a, limit).value.borrow)
  {
    hide SupplyInv, BorrowInv, StaticInv, Conserved, Funded, AccrueInterest, AddOwed, AddCharged;
  }

  lemma CollateralizePrincipals(s: State, c: Config, a: Account, amount: nat, safe: bool)
    requires Inv(s, c) && Collateralize(s, c, a, amount, safe).Some?
    ensures NoNewPrincipal(s.borrow, Collateralize(s, c, a, amount, safe).value.borrow)
  {
    hide SupplyInv, BorrowInv, StaticInv, Conserved, Funded, AccrueInterest, AddOwed, AddCharged;
  }

  lemma CollateralPrincipals(b: BorrowSide, a: Account, amount: nat, k: nat, success: bool)
    ensures a in b.positions && SendCollateral(b, a, amount).Some? ==>
              NoNewPrincipal(b, SendCollateral(b, a, amount).value)
    ensures k < |b.returning| && SettleCollateral(b, k, success).Some? ==>
              NoNewPrincipal(b, SettleCollateral(b, k, success).value)
  {
    hide RemoveAt, Exists;
  }

  lemma PayAllowed(b: BorrowSide, a: Account, amount: nat, minimum: nat)
    requires a in b.positions && AllAllowed(b, minimum) && Pay(b, a, amount, minimum).Some?
    ensures AllAllowed(Pay(b, a, amount, minimum).value.0, minimum)
  {
    SplitIsExact(b.positions[a], amount, minimum);
    hide Split;
  }

  lemma SeizeAllowed(b: BorrowSide, a: Account, seized: nat, recovered: nat, minimum: nat)
    requires a in b.positions && AllAllowed(b, minimum) && Seize(b, a, seized, recovered, minimum).Some?
    ensures AllAllowed(Seize(b, a, seized, recovered, minimum).value.0, minimum)
  {
    hide Exists, Pay;
    var taken := TakeCollateral(b, a, seized).value;
    assert AllAllowed(taken, minimum);
    PayAllowed(taken, a, recovered, minimum);
  }

  lemma SettleLoanAllowed(b: BorrowSide, k: nat, success: bool, now: nat, minimum: nat)
    requires k < |b.lending| && b.lending[k].amount > 0 && AllAllowed(b, minimum)
    requires SettleLoan(b, k, success, now).Some?
    ensures b.lending[k].account in b.positions
    ensures AllAllowed(SettleLoan(b, k, success, now).value, minimum) <==>
            !(success && b.positions[b.lending[k].account].principal + b.lending[k].amount < minimum)
  {
    hide RemoveAt;
    var t, a := SettleLoan(b, k, success, now).value, b.lending[k].account;
    assert t.positions[a].principal == b.positions[a].principal + if success then b.lending[k].amount else 0;
  }

  lemma LentAllowed(s: State, c: Config, k: nat, success: bool, now: nat)
    requires Inv(s, c) && AllAllowed(s.borrow, c.minimum) && BorrowEnd(s, c, k, success, now).Some?
    ensures AllAllowed(BorrowEnd(s, c, k, success, now).value.borrow, c.minimum) <==>
            !Undercuts(s, c, BorrowEnded(k, success, now))
  {
    hide SupplyInv, BorrowInv, StaticInv, Conserved, Funded, Guard, SettleLoan;
    var a := s.borrow.lending[k].account;
    GuardKeeps(s, c, a);
    GuardPrincipals(s, c, a);
    FlightAmount(s.borrow, s.snaps, k);
    SettleLoanAllowed(Guard(s, c, a).value, k, success, now, c.minimum);
  }

  lemma GuardedAllowed(s: State, c: Config, step: Step)
    requires Inv(s, c) && AllAllowed(s.borrow, c.minimum) && Next(s, c, step).Some?
    requires step.CollateralStarted? || step.CollateralEnded? || step.BorrowStarted? || step.Repaid? || step.Liquidated?
    ensures AllAllowed(Next(s, c, step).value.borrow, c.minimum)
  {
    hide SupplyInv, BorrowInv, StaticInv, Conserved, Funded, Guard, Available;
    hide SendCollateral, SettleCollateral, Pay, Seize;
    var a := if step.CollateralEnded? then s.borrow.returning[step.k].account else step.account;
    if Guard(s, c, a).Some? {
      GuardKeeps(s, c, a);
      GuardPrincipals(s, c, a);
      var b := Guard(s, c, a).value;
      match step
      case CollateralStarted(_, amount, _) => CollateralPrincipals(b, a, amount, 0, true);
      case CollateralEnded(k, success) => CollateralPrincipals(b, a, 0, k, success);
      case Repaid(_, amount, _) => PayAllowed(b, a, amount, c.minimum);
      case Liquidated(_, o) => SeizeAllowed(b, a, o.seized, Recovered(o), c.minimum);
      case BorrowStarted(_, _, _, _) =>
    }
  }

  lemma OtherAllowed(s: State, c: Config, step: Step)
    requires Inv(s, c) && Next(s, c, step).Some?
    requires !step.CollateralStarted? && !step.CollateralEnded? && !step.BorrowStarted? && !step.Repaid?
    requires !step.Liquidated? && !step.BorrowEnded?
    ensures NoNewPrincipal(s.borrow, Next(s, c, step).value.borrow)
  {
    hide SupplyInv, BorrowInv, StaticInv, Conserved, Funded, ApplyInterest, Collateralize;
    hide Touched, Deposit, Attempt, WithdrawalsEnd, AccrueSupply, AccrueStatic, Receive, Withdraw, SettleWithdrawal;
    match step
    case InterestApplied(a, limit) => InterestPrincipals(s, c, a, limit);
    case Collateralized(a, amount, safe) => CollateralizePrincipals(s, c, a, amount, safe);
    case WithdrawalsEnded(batch) => WithdrawalsEndSame(s, c, batch);
    case WithdrawalStarted(a, requested, fee) => WithdrawKeepsBorrow(s, c, a, requested, fee);
    case _ =>
  }

  lemma WithdrawKeepsBorrow(s: State, c: Config, a: Account, requested: nat, fee: nat)
    requires Inv(s, c) && WithdrawStart(s, c, a, requested, fee).Some?
    ensures WithdrawStart(s, c, a, requested, fee).value.borrow == s.borrow
  {
    hide Inv, Touched, Remove;
  }

  /** That every principal is zero or at least the minimum is kept by every step except
      the arrival of a loan that, with the principal of its position, is below the
      minimum: because an earlier loan failed, or because the principal was repaid while
      the loan was in flight. */
  lemma AllowedExactly(s: State, c: Config, step: Step)
    requires Inv(s, c) && AllAllowed(s.borrow, c.minimum) && Next(s, c, step).Some?
    ensures AllAllowed(Next(s, c, step).value.borrow, c.minimum) <==> !Undercuts(s, c, step)
  {
    hide Inv, Next;
    if step.BorrowEnded? {
      assert Next(s, c, step) == BorrowEnd(s, c, step.k, step.success, step.now) by { NextBorrowEnd(s, c, step); }
      LentAllowed(s, c, step.k, step.success, step.now);
    } else if step.CollateralStarted? || step.CollateralEnded? || step.BorrowStarted? || step.Repaid?
              || step.Liquidated? {
      GuardedAllowed(s, c, step);
    } else {
      OtherAllowed(s, c, step);
    }
  }

  /** No loan undercuts the minimum when it arrives. */
  ghost predicate NeverUndercuts(s: State, c: Config, steps: seq<Step>)
    requires Inv(s, c)
    decreases |steps|
  {
    steps != [] ==>
      && (Next(s, c, steps[0]).Some? ==> !Undercuts(s, c, steps[0]))
      && NeverUndercuts(After(s, c, steps[0]), c, steps[1..])
  }

  ghost predicate AllowedThroughout(s: State, c: Config, steps: seq<Step>)
    requires Inv(s, c)
    decreases |steps|
  {
    && AllAllowed(s.borrow, c.minimum)
    && (steps != [] ==> AllowedThroughout(After(s, c, steps[0]), c, steps[1..]))
  }

  /** Over a whole run every principal is always zero or at least the minimum if and
      only if no loan undercuts it. */
  lemma {:induction false} AllowedOverRuns(s: State, c: Config, steps: seq<Step>)
    requires Inv(s, c) && AllAllowed(s.borrow, c.minimum)
    ensures AllowedThroughout(s, c, steps) <==> NeverUndercuts(s, c, steps)
    decreases |steps|
  {
    hide Inv, Next, AllAllowed, Undercuts;
    if steps != [] {
      var t := After(s, c, steps[0]);
      if Next(s, c, steps[0]).Some? {
        AllowedExactly(s, c, steps[0]);
      }
      if AllAllowed(t.borrow, c.minimum) {
        AllowedOverRuns(t, c, steps[1..]);
      } else {
        assert !AllowedThroughout(t, c, steps[1..]);
      }
    }
  }
}
