/**
 What a withdrawal does to the supplier who makes it, to everyone else, and to the
 market's ability to pay the next one.
 */
module Withdrawals {
  import opened Arith
  import opened Sums
  import opened Accrual
  import opened SupplyLedger
  import opened SupplySteps
  import opened BorrowLedger
  import opened StaticLedger
  import opened Market
  import opened MarketRuns
  import opened BorrowSteps
  import Loans

  /** All a supplier can claim: deposits in every stage, and yield. */
  function Claim(p: SupplyPosition): (r: nat) {
    DepositTotal(p) + p.earned.total
  }

  function ClaimOf(s: State, a: Account): (r: nat) {
    if a in s.supply.positions then Claim(s.supply.positions[a]) else 0
  }

  /** An accrued position with no more than its entitlement asked for. */
  ghost predicate Ready(s: State, c: Config, a: Account, amount: nat) {
    && Inv(s, c) && a in s.supply.positions && s.supply.positions[a].earned.next == |s.snaps|
    && var p := s.supply.positions[a];
       amount <= TotalIncoming(p.incoming) + p.active + Min(p.earned.total, s.paid)
  }

  /** `u` is `s` after `plan` was taken out of one position for `receipt`. */
  ghost predicate TakenOut(s: SupplySide, u: SupplySide, plan: Plan, receipt: Withdrawal) {
    var a := receipt.account;
    && a in s.positions && a in u.positions
    && Claim(u.positions[a]) == Claim(s.positions[a]) && u.positions[a].earned.next == s.positions[a].earned.next
    && u.positions[a].outgoing == s.positions[a].outgoing + PlanAmount(plan)
    && u.pending == s.pending + [receipt] && u.active == s.active - plan.fromActive
    && TotalIncoming(u.incoming) == TotalIncoming(s.incoming) - plan.fromIncoming
    && u.positions.Keys == s.positions.Keys
    && forall b :: b != a && b in s.positions ==> u.positions[b] == s.positions[b]
  }

  lemma RemoveTakesOut(s: SupplySide, snaps: seq<Snapshot>, w: Weights, plan: Plan, receipt: Withdrawal)
    requires SupplyInv(s, snaps, w)
    requires receipt.account in s.positions && s.positions[receipt.account].earned.next == |snaps|
    requires var p := s.positions[receipt.account];
             && plan.fromYield <= p.earned.total && plan.fromIncoming <= TotalIncoming(p.incoming)
             && plan.fromActive <= p.active
    requires AmountOf(receipt) == PlanAmount(plan)
    ensures var r := Remove(s, plan.fromYield, plan.fromIncoming, plan.fromActive, receipt);
            r.Some? && TakenOut(s, r.value, plan, receipt)
  {
    hide SupplyInv, SumBy, TotalIncoming, RemoveIncoming;
    RemoveKeeps(s, snaps, w, plan.fromYield, plan.fromIncoming, plan.fromActive, receipt);
  }

  /** Nothing but the position, its receipt and the cash moves, and the claim stays. */
  ghost predicate Sent(s: State, u: State, a: Account, amount: nat, fee: nat) {
    && a in s.supply.positions
    && var plan := PlanOf(s.supply.positions[a], s.paid, amount);
       var toAccount := amount - Min(fee, amount);
       && TakenOut(s.supply, u.supply, plan, Withdrawal(a, toAccount, amount - toAccount))
       && u.paid == s.paid - plan.fromYield && u.balance == s.balance - toAccount
       && u.withdrawing == s.withdrawing + toAccount
       && u.borrow == s.borrow && u.statics == s.statics && u.snaps == s.snaps
  }

  lemma SendOutKeepsClaim(s: State, c: Config, a: Account, amount: nat, fee: nat)
    requires Ready(s, c, a, amount) && SendOut(s, a, amount, fee).Some?
    ensures var u := SendOut(s, a, amount, fee).value;
            Inv(u, c) && Sent(s, u, a, amount, fee)
  {
    hide SupplyInv, BorrowInv, StaticInv, Conserved, Funded, TotalIncoming, Remove, TakenOut, PendingToAccounts, PlanOf;
    var plan := PlanOf(s.supply.positions[a], s.paid, amount);
    var receipt := Withdrawal(a, amount - Min(fee, amount), Min(fee, amount));
    SendOutKeeps(s, c, a, amount, fee);
    PlanFits(s.supply.positions[a], s.paid, amount);
    RemoveTakesOut(s.supply, s.snaps, c.weights, plan, receipt);
  }

  /** What the market keeps after paying no more than `Withdrawable`: active deposits,
      yield set aside and this supplier's incoming deposits still cover the loans, so
      no other supplier's incoming deposit is touched. Active deposits and yield alone
      cover them exactly when the yield paid out was free. */
  lemma LoansStayCovered(s: State, c: Config, a: Account, amount: nat, fee: nat)
    requires Ready(s, c, a, amount) && SendOut(s, a, amount, fee).Some?
    requires s.supply.active + s.paid >= s.borrow.borrowed
    requires amount <= Withdrawable(s.supply.positions[a], s.supply.active, s.paid, s.borrow.borrowed).value
    ensures var u := SendOut(s, a, amount, fee).value;
            var p := s.supply.positions[a];
            var others := TotalIncoming(s.supply.incoming) - TotalIncoming(p.incoming);
            && u.supply.active + u.paid + TotalIncoming(u.supply.incoming) >= u.borrow.borrowed + others
            && (u.supply.active + u.paid >= u.borrow.borrowed <==>
                Min(Min(p.earned.total, s.paid), amount) <= s.supply.active + s.paid - s.borrow.borrowed)
  {
    hide SendOut, SupplyInv, BorrowInv, StaticInv, TotalIncoming, Claim, PendingToAccounts, Conserved, Funded;
    SendOutKeepsClaim(s, c, a, amount, fee);
    PlanFits(s.supply.positions[a], s.paid, amount);
  }

  // ---- Active deposits and loans ----

  /** The bound stated for the market's total of loans. */
  predicate ActiveCovers(s: State) {
    s.supply.active >= s.borrow.borrowed + s.borrow.inFlight
  }

  lemma SendOutCovers(s: State, c: Config, a: Account, amount: nat, fee: nat)
    requires Ready(s, c, a, amount) && SendOut(s, a, amount, fee).Some? && ActiveCovers(s)
    ensures var u := SendOut(s, a, amount, fee).value;
            var p := s.supply.positions[a];
            ActiveCovers(u) <==>
            amount <= Min(p.earned.total, s.paid) + TotalIncoming(p.incoming)
                      + (s.supply.active - s.borrow.borrowed - s.borrow.inFlight)
  {
    hide SendOut, SupplyInv, BorrowInv, StaticInv, TotalIncoming, Claim, PendingToAccounts, Conserved, Funded;
    SendOutKeepsClaim(s, c, a, amount, fee);
    PlanFits(s.supply.positions[a], s.paid, amount);
  }

  /** What a withdrawal from an accrued position would pay is at most its yield, its
      incoming deposits and the active deposits that are not lent. */
  predicate UnlentSuffices(s: State, a: Account, requested: nat)
    requires a in s.supply.positions
  {
    var p := s.supply.positions[a];
    var own, earned := TotalIncoming(p.incoming), Min(p.earned.total, s.paid);
    var unlent := s.supply.active - s.borrow.borrowed - s.borrow.inFlight;
    Min(requested, Min(own + p.active + earned, s.supply.active + s.paid - s.borrow.borrowed + own))
    <= earned + own + unlent
  }

  lemma AttemptCovers(s: State, c: Config, a: Account, requested: nat, fee: nat)
    requires Inv(s, c) && a in s.supply.positions && s.supply.positions[a].earned.next == |s.snaps|
    requires ActiveCovers(s) && Attempt(s, a, requested, fee).Some?
    ensures ActiveCovers(Attempt(s, a, requested, fee).value) <==> UnlentSuffices(s, a, requested)
  {
    hide Inv, TotalIncoming, SendOut;
    var can := Withdrawable(s.supply.positions[a], s.supply.active, s.paid, s.borrow.borrowed);
    if can.Some? && can.value > 0 {
      SendOutCovers(s, c, a, Min(requested, can.value), fee);
    }
  }

  /** The same before the position is accrued. */
  ghost predicate WithinUnlent(s: State, c: Config, a: Account, requested: nat)
    requires Inv(s, c)
  {
    TouchedKeeps(s.supply, s.snaps, c.weights, a);
    a in s.supply.positions ==>
      UnlentSuffices(s.(supply := Touched(s.supply, s.snaps, c.weights, a)), a, requested)
  }

  lemma WithdrawalCovers(s: State, c: Config, a: Account, requested: nat, fee: nat)
    requires Inv(s, c) && ActiveCovers(s) && WithdrawStart(s, c, a, requested, fee).Some?
    ensures ActiveCovers(WithdrawStart(s, c, a, requested, fee).value) <==> WithinUnlent(s, c, a, requested)
  {
    hide SupplyInv, BorrowInv, StaticInv, Conserved, Funded, Touched, Attempt, UnlentSuffices, WellFormed, SumBy;
    if a in s.supply.positions {
      TouchedInv(s, c, a);
      TouchedKeeps(s.supply, s.snaps, c.weights, a);
      AttemptCovers(s.(supply := Touched(s.supply, s.snaps, c.weights, a)), c, a, requested, fee);
    }
  }

  /** The step is a loan's arrival. */
  predicate Arrives(s: State, step: Step) {
    step.BorrowEnded? && step.success && step.k < |s.borrow.lending|
  }

  /** How a step that is not a withdrawal moves the figures: active deposits and yield
      set aside never fall, only starting a loan adds to the loans made and in flight,
      and only a loan's arrival adds to those made. */
  ghost predicate Moves(s: State, t: State, step: Step) {
    && t.supply.active >= s.supply.active && t.paid >= s.paid
    && (!step.BorrowStarted? ==> t.borrow.borrowed + t.borrow.inFlight <= s.borrow.borrowed + s.borrow.inFlight)
    && (!Arrives(s, step) ==> t.borrow.borrowed <= s.borrow.borrowed)
    && (Arrives(s, step) ==>
          && t.borrow.borrowed == s.borrow.borrowed + s.borrow.lending[step.k].amount
          && t.supply.active == s.supply.active && t.paid == s.paid)
  }

  lemma SupplyStepMoves(s: State, c: Config, step: Step)
    requires Inv(s, c) && Next(s, c, step).Some?
    requires step.Finalize? || step.Supplied? || step.WithdrawalsEnded? || step.Harvested?
    ensures Moves(s, Next(s, c, step).value, step)
  {
    hide SupplyInv, BorrowInv, StaticInv, Conserved, Funded, Touched, Settle, Receive, SumBy, TotalIncoming;
    hide AmountListedAt, FindAt, AddIncoming, AccrueYield, WithdrawalsEnd;
    match step
    case Supplied(a, amount, now) =>
      TouchedKeeps(s.supply, s.snaps, c.weights, a);
      DepositKeeps(Touched(s.supply, s.snaps, c.weights, a), s.snaps, c.weights, a, amount, now);
      hide Deposit;
    case WithdrawalsEnded(batch) => WithdrawalsEndSame(s, c, batch);
    case _ =>
  }

  lemma BorrowStepMoves(s: State, c: Config, step: Step)
    requires Inv(s, c) && Next(s, c, step).Some?
    requires step.CollateralStarted? || step.CollateralEnded? || step.BorrowEnded? || step.Repaid? || step.Liquidated?
             || step.BorrowStarted?
    ensures Moves(s, Next(s, c, step).value, step)
  {
    hide SupplyInv, BorrowInv, StaticInv, Conserved, Funded, Guard, SettleCollateral, SettleLoan, Pay, Seize, Available;
    var a := if step.CollateralEnded? then s.borrow.returning[step.k].account
             else if step.BorrowEnded? then s.borrow.lending[step.k].account else step.account;
    if Guard(s, c, a).Some? {
      GuardKeeps(s, c, a);
      var b := Guard(s, c, a).value;
      match step
      case CollateralEnded(k, success) => DroppedSame(b, k, success);
      case BorrowEnded(k, success, now) => SettleLoanKeeps(b, s.snaps, k, success, now);
      case Repaid(_, amount, _) => PayKeeps(b, s.snaps, a, amount, c.minimum);
      case Liquidated(_, o) => SeizeKeeps(b, s.snaps, a, o.seized, Recovered(o), c.minimum);
      case _ =>
    }
  }

  lemma OtherStepMoves(s: State, c: Config, step: Step)
    requires Inv(s, c) && Next(s, c, step).Some?
    requires step.Collateralized? || step.InterestApplied?
             || step.StaticAccrued? || step.StaticStarted? || step.StaticEnded?
    ensures Moves(s, Next(s, c, step).value, step)
  {
    hide SupplyInv, BorrowInv, StaticInv, Conserved, Funded, AccrueInterest, AddOwed, AddCharged;
    hide AccrueStatic, Withdraw, SettleWithdrawal;
    match step
    case Collateralized(a, amount, _) =>
      ChargedKeeps(s.borrow, s.snaps, a);
      hide Charged;
    case _ =>
  }

  lemma StepMoves(s: State, c: Config, step: Step)
    requires Inv(s, c) && Next(s, c, step).Some? && !step.WithdrawalStarted?
    ensures Moves(s, Next(s, c, step).value, step)
  {
    hide Inv, Next, Moves;
    if step.Finalize? || step.Supplied? || step.WithdrawalsEnded? || step.Harvested? {
      SupplyStepMoves(s, c, step);
    } else if step.Collateralized? || step.InterestApplied? || step.StaticAccrued? || step.StaticStarted?
              || step.StaticEnded? {
      OtherStepMoves(s, c, step);
    } else {
      BorrowStepMoves(s, c, step);
    }
  }

  lemma LoanStartCovers(s: State, c: Config, step: Step)
    requires Inv(s, c) && Next(s, c, step).Some? && step.BorrowStarted?
    ensures ActiveCovers(Next(s, c, step).value)
  {
    hide Inv, BorrowStart;
    Loans.LoanWithinUsage(s, c, step.account, step.amount, step.fees, step.permitted);
    var t := BorrowStart(s, c, step.account, step.amount, step.fees, step.permitted).value;
    assert c.usage <= TWO_128 by { UsageBounded(s, c); }
    MulMono(c.usage, TWO_128, t.supply.active);
    ScaleLess(t.supply.active, t.borrow.borrowed + t.borrow.inFlight, TWO_128);
  }

  lemma UsageBounded(s: State, c: Config)
    requires Inv(s, c)
    ensures c.usage <= TWO_128
  {}

  /** Every step but a withdrawal keeps the bound, and a withdrawal keeps it if and only
      if what it pays is yield, incoming deposits or not lent. */
  lemma CoverExactly(s: State, c: Config, step: Step)
    requires Inv(s, c) && ActiveCovers(s) && Next(s, c, step).Some?
    ensures ActiveCovers(Next(s, c, step).value) <==>
            (step.WithdrawalStarted? ==> WithinUnlent(s, c, step.account, step.requested))
  {
    hide Inv, Next, WithinUnlent;
    if step.WithdrawalStarted? {
      assert Next(s, c, step) == WithdrawStart(s, c, step.account, step.requested, step.fee) by {
        NextWithdrawStart(s, c, step);
      }
      WithdrawalCovers(s, c, step.account, step.requested, step.fee);
    } else if step.BorrowStarted? {
      LoanStartCovers(s, c, step);
    } else {
      StepMoves(s, c, step);
    }
  }

  // ---- Active deposits, yield and loans ----

  /** Loans made are within active deposits and the yield set aside; otherwise no
      withdrawal is possible. */
  predicate Payable(s: State) {
    s.supply.active + s.paid >= s.borrow.borrowed
  }

  /** What a withdrawal from an accrued position would take from the yield is free. */
  predicate YieldIsFree(s: State, a: Account, requested: nat)
    requires a in s.supply.positions
  {
    var p := s.supply.positions[a];
    var own, earned := TotalIncoming(p.incoming), Min(p.earned.total, s.paid);
    var free := s.supply.active + s.paid - s.borrow.borrowed;
    Min(earned, Min(requested, Min(own + p.active + earned, free + own))) <= free
  }

  lemma AttemptPayable(s: State, c: Config, a: Account, requested: nat, fee: nat)
    requires Inv(s, c) && a in s.supply.positions && s.supply.positions[a].earned.next == |s.snaps|
    requires Payable(s) && Attempt(s, a, requested, fee).Some?
    ensures Payable(Attempt(s, a, requested, fee).value) <==> YieldIsFree(s, a, requested)
  {
    hide Inv, TotalIncoming, SendOut;
    var can := Withdrawable(s.supply.positions[a], s.supply.active, s.paid, s.borrow.borrowed);
    if can.Some? && can.value > 0 {
      var amount := Min(requested, can.value);
      LoansStayCovered(s, c, a, amount, fee);
      SendOutKeepsClaim(s, c, a, amount, fee);
    }
  }

  /** The same before the position is accrued. */
  ghost predicate FreeYield(s: State, c: Config, a: Account, requested: nat)
    requires Inv(s, c)
  {
    TouchedKeeps(s.supply, s.snaps, c.weights, a);
    a in s.supply.positions ==>
      YieldIsFree(s.(supply := Touched(s.supply, s.snaps, c.weights, a)), a, requested)
  }

  lemma WithdrawalPayable(s: State, c: Config, a: Account, requested: nat, fee: nat)
    requires Inv(s, c) && Payable(s) && WithdrawStart(s, c, a, requested, fee).Some?
    ensures Payable(WithdrawStart(s, c, a, requested, fee).value) <==> FreeYield(s, c, a, requested)
  {
    hide SupplyInv, BorrowInv, StaticInv, Conserved, Funded, Touched, Attempt, YieldIsFree, WellFormed, SumBy;
    if a in s.supply.positions {
      TouchedInv(s, c, a);
      TouchedKeeps(s.supply, s.snaps, c.weights, a);
      AttemptPayable(s.(supply := Touched(s.supply, s.snaps, c.weights, a)), c, a, requested, fee);
    }
  }

  /** That loans stay within active deposits and yield is kept by every step except two,
      and by those exactly on these conditions: a loan that arrives must fit under them,
      and the yield a withdrawal pays must be free. */
  lemma PayableExactly(s: State, c: Config, step: Step)
    requires Inv(s, c) && Payable(s) && Next(s, c, step).Some?
    ensures Payable(Next(s, c, step).value) <==>
            && (step.WithdrawalStarted? ==> FreeYield(s, c, step.account, step.requested))
            && (Arrives(s, step) ==>
                  s.borrow.borrowed + s.borrow.lending[step.k].amount <= s.supply.active + s.paid)
  {
    hide Inv, Next, FreeYield;
    if step.WithdrawalStarted? {
      assert Next(s, c, step) == WithdrawStart(s, c, step.account, step.requested, step.fee) by {
        NextWithdrawStart(s, c, step);
      }
      WithdrawalPayable(s, c, step.account, step.requested, step.fee);
    } else {
      StepMoves(s, c, step);
    }
  }

  // ---- Payments ----

  /** A supplier with an accrued position has something to ask for, and either loans
      exceed active deposits and yield, or the cash is short. */
  predicate CannotBePaid(s: State, a: Account, requested: nat, fee: nat)
    requires a in s.supply.positions
  {
    var p := s.supply.positions[a];
    var entitled := TotalIncoming(p.incoming) + p.active + Min(p.earned.total, s.paid);
    var free := s.supply.active + s.paid - s.borrow.borrowed;
    var amount := Min(requested, Min(entitled, free + TotalIncoming(p.incoming)));
    entitled > 0 && (free < 0 || s.balance < amount - Min(fee, amount))
  }

  lemma AttemptPanics(s: State, c: Config, a: Account, requested: nat, fee: nat)
    requires Inv(s, c) && a in s.supply.positions && s.supply.positions[a].earned.next == |s.snaps|
    ensures Attempt(s, a, requested, fee).None? <==> CannotBePaid(s, a, requested, fee)
  {
    hide Inv, TotalIncoming, SendOut;
    var can := Withdrawable(s.supply.positions[a], s.supply.active, s.paid, s.borrow.borrowed);
    if can.Some? {
      SendOutKeeps(s, c, a, Min(requested, can.value), fee);
    }
  }

  /** A withdrawal panics if and only if its supplier cannot be paid. */
  lemma WithdrawalPanics(s: State, c: Config, a: Account, requested: nat, fee: nat)
    requires Inv(s, c)
    ensures TimesOrdered(s.snaps) && c.weights.total > 0
    ensures a in s.supply.positions ==> WellFormed(s.supply.positions[a], |s.snaps|)
    ensures var t := Touched(s.supply, s.snaps, c.weights, a);
            && (a in t.positions <==> a in s.supply.positions)
            && (WithdrawStart(s, c, a, requested, fee).None? <==>
                a in t.positions && CannotBePaid(s.(supply := t), a, requested, fee))
  {
    hide SupplyInv, BorrowInv, StaticInv, Conserved, Funded, Touched, Attempt, CannotBePaid, WellFormed, SumBy;
    TouchedInv(s, c, a);
    if a in s.supply.positions {
      AttemptPanics(s.(supply := Touched(s.supply, s.snaps, c.weights, a)), c, a, requested, fee);
    }
  }

  /** A withdrawal that goes through puts in flight the lesser of what was asked for
      and what can be paid now; what is paid and what remains make up the request, or
      all there is if the request was for more. */
  lemma AttemptPays(s: State, c: Config, a: Account, requested: nat, fee: nat)
    requires Inv(s, c) && a in s.supply.positions && s.supply.positions[a].earned.next == |s.snaps|
    requires Attempt(s, a, requested, fee).Some?
    ensures var u, p := Attempt(s, a, requested, fee).value, s.supply.positions[a];
            var entitled := TotalIncoming(p.incoming) + p.active + Min(p.earned.total, s.paid);
            && a in u.supply.positions && u.supply.positions[a].outgoing >= p.outgoing
            && var paid := u.supply.positions[a].outgoing - p.outgoing;
               match AttemptOutcome(s, a, requested)
               case PaidInFull => paid == Min(requested, entitled)
               case PaidInPart(remaining) => paid > 0 && remaining > 0 && paid + remaining == Min(requested, entitled)
               case _ => u == s
  {
    hide Inv, TotalIncoming, SendOut;
    var can := Withdrawable(s.supply.positions[a], s.supply.active, s.paid, s.borrow.borrowed);
    if can.Some? && can.value > 0 {
      var amount := Min(requested, can.value);
      SendOutKeepsClaim(s, c, a, amount, fee);
      SentAmount(s, c, a, amount, fee);
    }
  }

  lemma SentAmount(s: State, c: Config, a: Account, amount: nat, fee: nat)
    requires Ready(s, c, a, amount)
    ensures PlanAmount(PlanOf(s.supply.positions[a], s.paid, amount)) == amount
    ensures AmountOf(Withdrawal(a, amount - Min(fee, amount), Min(fee, amount))) == amount
  {
    PlanFits(s.supply.positions[a], s.paid, amount);
  }

  // ---- Callbacks ----

  /** What a supplier could ask for: all but what is in flight. */
  function HoldingsOf(s: State, a: Account): (r: nat) {
    if a in s.supply.positions then Holdings(s.supply.positions[a]) else 0
  }

  function Holdings(p: SupplyPosition): (r: nat) {
    p.active + TotalIncoming(p.incoming) + p.earned.total
  }

  /** Everyone but `a` has the same position in both. */
  ghost predicate OthersSame(s: SupplySide, u: SupplySide, a: Account) {
    forall b :: b != a ==> (b in s.positions <==> b in u.positions)
                           && (b in s.positions ==> s.positions[b] == u.positions[b])
  }

  lemma ReleasedClaim(s: SupplySide, k: nat)
    requires k < |s.pending| && s.pending[k].account in s.positions
    requires AmountOf(s.pending[k]) <= s.positions[s.pending[k].account].outgoing
    ensures var r, a := Released(s, k), s.pending[k].account;
            && a in r.positions && r.pending == RemoveAt(s.pending, k) && OthersSame(s, r, a)
            && Claim(r.positions[a]) == Claim(s.positions[a]) - AmountOf(s.pending[k])
            && Holdings(r.positions[a]) == Holdings(s.positions[a])
            && r.positions[a].incoming == s.positions[a].incoming
  {
    hide RemoveAt, TotalIncoming;
  }

  lemma CleanupClaim(r: SupplySide, a: Account)
    requires a in r.positions
    ensures var t := Cleanup(r, a);
            && t.pending == r.pending && OthersSame(r, t, a)
            && (if a in t.positions then Claim(t.positions[a]) else 0) == Claim(r.positions[a])
            && (if a in t.positions then Holdings(t.positions[a]) else 0) == Holdings(r.positions[a])
  {
    hide TotalIncoming;
  }

  lemma AddedClaim(r: SupplySide, snaps: seq<Snapshot>, w: Weights, a: Account, amount: nat)
    requires SupplyInv(r, snaps, w) && a in r.positions && AddIncoming(r, |snaps|, a, amount).Some?
    ensures var t := AddIncoming(r, |snaps|, a, amount).value;
            && a in t.positions && t.pending == r.pending && OthersSame(r, t, a)
            && Claim(t.positions[a]) == Claim(r.positions[a]) + amount
            && Holdings(t.positions[a]) == Holdings(r.positions[a]) + amount
  {
    hide SupplyInv, AddOwn, AddMarket, TotalIncoming, SumBy;
    AddIncomingKeeps(r, snaps, w, a, amount);
  }

  lemma SettledBack(s: SupplySide, snaps: seq<Snapshot>, w: Weights, k: nat)
    requires SupplyInv(s, snaps, w) && k < |s.pending| && s.pending[k].account in s.positions
    requires Settle(s, |snaps|, k, false).Some?
    ensures var t, a := Settle(s, |snaps|, k, false).value, s.pending[k].account;
            && a in t.positions && t.pending == RemoveAt(s.pending, k) && OthersSame(s, t, a)
            && Claim(t.positions[a]) == Claim(s.positions[a])
            && Holdings(t.positions[a]) == Holdings(s.positions[a]) + AmountOf(s.pending[k])
  {
    hide SupplyInv, SumBy, Claim, Holdings, Cleanup, AddIncoming, AmountOf, RemoveAt;
    ReleasedKeeps(s, snaps, w, k);
    ReleasedClaim(s, k);
    AddedClaim(Released(s, k), snaps, w, s.pending[k].account, AmountOf(s.pending[k]));
    hide Released;
  }

  lemma SettledAway(s: SupplySide, snaps: seq<Snapshot>, w: Weights, k: nat)
    requires SupplyInv(s, snaps, w) && k < |s.pending| && s.pending[k].account in s.positions
    ensures Settle(s, |snaps|, k, true).Some?
    ensures var t, a := Settle(s, |snaps|, k, true).value, s.pending[k].account;
            && t.pending == RemoveAt(s.pending, k) && OthersSame(s, t, a)
            && (if a in t.positions then Claim(t.positions[a]) else 0)
               == Claim(s.positions[a]) - AmountOf(s.pending[k])
            && (if a in t.positions then Holdings(t.positions[a]) else 0) == Holdings(s.positions[a])
  {
    hide SupplyInv, SumBy, Claim, Holdings, Cleanup, AddIncoming, AmountOf, RemoveAt;
    ReleasedKeeps(s, snaps, w, k);
    ReleasedClaim(s, k);
    CleanupClaim(Released(s, k), s.pending[k].account);
    hide Released;
  }

  lemma SettledOrphan(s: SupplySide, snaps: seq<Snapshot>, w: Weights, k: nat, success: bool)
    requires SupplyInv(s, snaps, w) && k < |s.pending| && s.pending[k].account !in s.positions
    ensures Settle(s, |snaps|, k, success) == Some(s.(pending := RemoveAt(s.pending, k)))
    ensures AmountOf(s.pending[k]) == 0 && s.pending[k].toAccount == 0 && s.pending[k].toFees == 0
  {
    SettleOrphan(s, snaps, w, k, success);
    hide SupplyInv, SettleEffect;
  }

  /** Settling a failed transfer, whatever happened since the withdrawal was started: the
      whole amount is back in the position, with everyone else and the claim as they were
      and the cash returned, if and only if the position has room for another incoming
      entry. If it has none settling panics. */
  lemma FailedCallbackRestores(s: State, c: Config, k: nat)
    requires Inv(s, c) && k < |s.supply.pending|
    ensures AmountOf(s.supply.pending[k]) > 0 ==> s.supply.pending[k].account in s.supply.positions
    ensures var receipt, a := s.supply.pending[k], s.supply.pending[k].account;
            var t := WithdrawEnd(s, c, k, false);
            && (t.None? <==> a in s.supply.positions && Full(s.supply.positions[a], |s.snaps|))
            && (t.Some? ==>
                  && HoldingsOf(t.value, a) == HoldingsOf(s, a) + AmountOf(receipt)
                  && ClaimOf(t.value, a) == ClaimOf(s, a) && OthersSame(s.supply, t.value.supply, a)
                  && t.value.supply.pending == RemoveAt(s.supply.pending, k)
                  && t.value.balance == s.balance + receipt.toAccount
                  && t.value.withdrawing == s.withdrawing - receipt.toAccount
                  && t.value.borrow == s.borrow && t.value.statics == s.statics && t.value.paid == s.paid)
  {
    hide SupplyInv, BorrowInv, StaticInv, Conserved, Funded, Settle, Full, Claim, Holdings, AmountOf;
    hide RemoveAt, PendingToAccounts;
    WithdrawEndKeeps(s, c, k, false);
    if s.supply.pending[k].account !in s.supply.positions {
      SettledOrphan(s.supply, s.snaps, c.weights, k, false);
    } else if WithdrawEnd(s, c, k, false).Some? {
      SettledBack(s.supply, s.snaps, c.weights, k);
    }
  }

  lemma ProtocolKnown(s: State, c: Config)
    requires Inv(s, c)
    ensures c.protocol in s.statics.records
  {}

  /** Settling a successful transfer, whatever happened since: the claim is smaller by
      the amount, of which the fee is credited to the protocol's account, and
      nobody else is touched. */
  lemma SuccessfulCallbackPays(s: State, c: Config, k: nat)
    requires Inv(s, c) && k < |s.supply.pending|
    ensures c.protocol in s.statics.records && WithdrawEnd(s, c, k, true).Some?
    ensures var receipt, a := s.supply.pending[k], s.supply.pending[k].account;
            var t := WithdrawEnd(s, c, k, true).value;
            && ClaimOf(t, a) == ClaimOf(s, a) - AmountOf(receipt) && HoldingsOf(t, a) == HoldingsOf(s, a)
            && OthersSame(s.supply, t.supply, a) && t.supply.pending == RemoveAt(s.supply.pending, k)
            && t.balance == s.balance && t.withdrawing == s.withdrawing - receipt.toAccount
            && c.protocol in t.statics.records
            && t.statics.records[c.protocol].earned.total
               == s.statics.records[c.protocol].earned.total + receipt.toFees
            && t.borrow == s.borrow && t.paid == s.paid
  {
    hide SupplyInv, BorrowInv, StaticInv, Conserved, Funded, Full, Claim, Holdings, AmountOf;
    hide Released, Cleanup, AddIncoming, RemoveAt, PendingToAccounts;
    WithdrawEndKeeps(s, c, k, true);
    if s.supply.pending[k].account !in s.supply.positions {
      SettleOrphan(s.supply, s.snaps, c.weights, k, true);
    } else {
      SettledAway(s.supply, s.snaps, c.weights, k);
      hide Settle;
    }
  }
}
