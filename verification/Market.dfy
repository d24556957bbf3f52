/**
 The market: suppliers, borrowers and static accounts together with the cash the
 market holds, as a state machine over its external calls and transfer callbacks.
 Every call either has its full effect or, where the source panics, none.
 */
module Market {
  import opened Arith
  import opened Sums
  import opened Accrual
  import opened SupplyLedger
  import opened SupplySteps
  import opened BorrowLedger
  import opened BorrowSteps
  import opened StaticLedger

  /** `usage` is the highest ratio of borrowed to active deposits, `minimum` the
      smallest principal, `protocol` the account that takes withdrawal fees, `deposits`
      the range a position's deposit must be in after a deposit. */
  datatype Config = Config(weights: Weights, protocol: Account, minimum: nat, usage: nat, deposits: Range)

  /** An amount range without or with an upper end. */
  datatype Range = Range(least: nat, most: Option<nat>)

  predicate Contains(range: Range, amount: nat) {
    amount >= range.least && (range.most.None? || amount <= range.most.value)
  }

  /** `withdrawing` is the market's own total of withdrawals in flight; `surplus`
      counts what liquidators paid beyond the liability, and `feesPaid` the fees repaid. */
  datatype State = State(supply: SupplySide, borrow: BorrowSide, statics: StaticSide, snaps: seq<Snapshot>,
                         distribution: nat, balance: nat, withdrawing: nat, paid: nat, surplus: nat, feesPaid: nat)

  // ---- The invariant ----

  /** Cash held and cash lent or sent out, against what the market owes. */
  ghost predicate Conserved(s: State) {
    s.balance + s.borrow.borrowed + s.borrow.inFlight + s.withdrawing + s.statics.withdrawn
    == s.supply.active + TotalIncoming(s.supply.incoming) + SumBy(s.supply.positions, Outgoing())
       + s.paid + s.surplus + s.statics.received
  }

  function Distributed(snaps: seq<Snapshot>): (r: nat) {
    if snaps == [] then 0 else Distributed(snaps[..|snaps| - 1]) + snaps[|snaps| - 1].distribution
  }

  /** What was paid to suppliers came from borrowers, and what was promised to them
      beside the interest is owed or was paid. */
  ghost predicate Funded(s: State) {
    && s.paid + s.supply.taken == s.borrow.repaid + s.feesPaid
    && Distributed(s.snaps) + s.distribution == s.borrow.fees + s.feesPaid + s.surplus
  }

  ghost predicate ValidConfig(c: Config) {
    ValidWeights(c.weights) && c.usage <= TWO_128
  }

  ghost predicate Inv(s: State, c: Config) {
    && ValidConfig(c) && c.protocol in s.statics.records && s.snaps != [] && TimesOrdered(s.snaps)
    && SupplyInv(s.supply, s.snaps, c.weights)
    && BorrowInv(s.borrow, s.snaps)
    && StaticInv(s.statics, s.snaps, c.weights)
    && s.withdrawing == PendingToAccounts(s.supply.pending)
    && Conserved(s) && Funded(s)
  }

  function EmptyMarket(start: nat, records: map<Account, StaticRecord>): (s: State) {
    State(SupplySide(map[], 0, [], [], [0], [0], 0, 0),
          BorrowSide(map[], 0, 0, 0, [], [], [0], [0], [0], 0, 0, 0),
          StaticSide(records, [], [0], [0], 0, 0),
          [Snapshot(start, 0, 0, 0, 0)], 0, 0, 0, 0, 0, 0)
  }

  /** The static accounts of the configuration, with nothing earned yet. */
  ghost predicate FreshRecords(records: map<Account, StaticRecord>, c: Config) {
    && c.protocol in records
    && (forall a :: a in records ==> records[a].earned == Accumulator(0, 0, 1))
    && SumBy(records, Weight()) + c.weights.supply == c.weights.total
  }

  lemma EmptyMarketInv(start: nat, records: map<Account, StaticRecord>, c: Config)
    requires ValidConfig(c) && FreshRecords(records, c)
    ensures Inv(EmptyMarket(start, records), c)
  {
    var s := EmptyMarket(start, records);
    SumZero(records, EarnedStatic());
    SumZero(s.supply.positions, Open(1));
    SumZero(s.supply.positions, Due(2));
    SumZero(s.supply.positions, Outgoing());
    SumZero(s.supply.positions, Earned());
    SumZero(s.borrow.positions, Principal());
    SumZero(s.borrow.positions, InFlight());
    SumZero(s.borrow.positions, Collateral());
    SumZero(s.borrow.positions, InterestOwed());
    SumZero(s.borrow.positions, Fees());
    assert Distributed(s.snaps) == 0 by { assert s.snaps[..0] == []; }
    hide SumBy;
    assert Total([0]) == 0 by { assert [0][..0] == []; }
  }

  // ---- Snapshots ----

  /** Finalizes the current snapshot at time `now`, with the interest rate the
      strategy gives. The clock never runs backwards. */
  function Tick(s: State, now: nat, rate: nat): (r: Option<State>)
    requires s.snaps != []
  {
    var count := |s.snaps|;
    if now < s.snaps[count - 1].end || count >= U32_MAX then None
    else
      var snap := Snapshot(now, CurrentActive(s.supply, count), s.borrow.borrowed + s.borrow.inFlight,
                           s.distribution, rate);
      Some(s.(snaps := s.snaps + [snap], supply := Activated(s.supply, count), borrow := Extended(s.borrow),
              statics := Lengthened(s.statics), distribution := 0))
  }

  lemma TickKeeps(s: State, c: Config, now: nat, rate: nat)
    requires Inv(s, c) && s.snaps != [] && Tick(s, now, rate).Some?
    ensures Inv(Tick(s, now, rate).value, c)
  {
    hide SupplyInv, BorrowInv, StaticInv, SumBy, TotalIncoming, CurrentActive;
    var snap := Tick(s, now, rate).value.snaps[|s.snaps|];
    ActivatedKeeps(s.supply, s.snaps, c.weights, snap);
    ExtendedKeeps(s.borrow, s.snaps, snap);
    LengthenedKeeps(s.statics, s.snaps, c.weights, snap);
    assert (s.snaps + [snap])[..|s.snaps|] == s.snaps;
    hide Activated, Extended, Lengthened;
  }

  // ---- Suppliers ----

  function Supply(s: State, c: Config, a: Account, amount: nat, now: nat): (r: Option<State>)
    requires Inv(s, c)
  {
    TouchedKeeps(s.supply, s.snaps, c.weights, a);
    var supply := Deposit(Touched(s.supply, s.snaps, c.weights, a), |s.snaps|, a, amount, now);
    if supply.None? || !Contains(c.deposits, DepositTotal(supply.value.positions[a])) then None
    else Some(s.(supply := supply.value, balance := s.balance + amount))
  }

  /** All that is deposited in the position of `a`, in every stage. */
  function DepositOf(s: State, a: Account): (r: nat) {
    if a in s.supply.positions then DepositTotal(s.supply.positions[a]) else 0
  }

  /** A deposit panics exactly when it takes the position out of the allowed range. */
  lemma SupplyKeeps(s: State, c: Config, a: Account, amount: nat, now: nat)
    requires Inv(s, c)
    ensures Supply(s, c, a, amount, now).Some? <==> Contains(c.deposits, DepositOf(s, a) + amount)
    ensures Supply(s, c, a, amount, now).Some? ==> Inv(Supply(s, c, a, amount, now).value, c)
  {
    hide SupplyInv, BorrowInv, StaticInv, SumBy, TotalIncoming, Touched, Deposit, DepositTotal, Contains;
    TouchedKeeps(s.supply, s.snaps, c.weights, a);
    DepositKeeps(Touched(s.supply, s.snaps, c.weights, a), s.snaps, c.weights, a, amount, now);
    TouchedDeposit(s.supply, s.snaps, c.weights, a);
    assert DepositTotal(NewPosition(|s.snaps|)) == 0 by { NewHasNothing(|s.snaps|); }
  }

  /** How much of a withdrawal comes from each part of the position. */
  datatype Plan = Plan(fromYield: nat, fromIncoming: nat, fromActive: nat)

  function PlanAmount(plan: Plan): (r: nat) {
    plan.fromYield + plan.fromIncoming + plan.fromActive
  }

  /** What a supplier can be paid now; `None` if the market's figures underflow. */
  function Withdrawable(p: SupplyPosition, active: nat, paid: nat, borrowed: nat): (r: Option<nat>) {
    if active + paid < borrowed then None
    else Some(Min(TotalIncoming(p.incoming) + p.active + Min(p.earned.total, paid),
                  active + paid - borrowed + TotalIncoming(p.incoming)))
  }

  /** Yield first, then incoming, then active deposits. */
  function PlanOf(p: SupplyPosition, paid: nat, amount: nat): (plan: Plan) {
    var fromYield := Min(Min(p.earned.total, paid), amount);
    var fromIncoming := Min(TotalIncoming(p.incoming), amount - fromYield);
    Plan(fromYield, fromIncoming, amount - fromYield - fromIncoming)
  }

  /** Takes `amount` out of the position of `a` and sends it, less the fee. */
  function SendOut(s: State, a: Account, amount: nat, fee: nat): (r: Option<State>)
    requires a in s.supply.positions
  {
    var plan := PlanOf(s.supply.positions[a], s.paid, amount);
    var toFees := Min(fee, amount);
    var toAccount := amount - toFees;
    var r := Remove(s.supply, plan.fromYield, plan.fromIncoming, plan.fromActive, Withdrawal(a, toAccount, toFees));
    if r.None? || s.balance < toAccount || s.paid < plan.fromYield then None
    else Some(s.(supply := r.value, paid := s.paid - plan.fromYield, balance := s.balance - toAccount,
                 withdrawing := s.withdrawing + toAccount))
  }

  /** A withdrawal from an accrued position: nothing happens if it is empty or the
      market has no liquidity for it. */
  function Attempt(s: State, a: Account, requested: nat, fee: nat): (r: Option<State>)
    requires a in s.supply.positions
  {
    var p := s.supply.positions[a];
    if TotalIncoming(p.incoming) + p.active + Min(p.earned.total, s.paid) == 0 then Some(s) else
      var can := Withdrawable(p, s.supply.active, s.paid, s.borrow.borrowed);
      if can.None? then None
      else if can.value == 0 then Some(s)
      else SendOut(s, a, Min(requested, can.value), fee)
  }

  function WithdrawStart(s: State, c: Config, a: Account, requested: nat, fee: nat): (r: Option<State>)
    requires Inv(s, c)
  {
    TouchedKeeps(s.supply, s.snaps, c.weights, a);
    if a !in s.supply.positions then Some(s)
    else Attempt(s.(supply := Touched(s.supply, s.snaps, c.weights, a)), a, requested, fee)
  }

  datatype Outcome = NoPosition | EmptyPosition | NoLiquidity | PaidInPart(remaining: nat) | PaidInFull

  /** What comes of a withdrawal from an accrued position that does not panic. A
      request for more than the position holds counts as one for all of it. */
  function AttemptOutcome(s: State, a: Account, requested: nat): (r: Outcome)
    requires a in s.supply.positions
  {
    var p := s.supply.positions[a];
    var entitled := TotalIncoming(p.incoming) + p.active + Min(p.earned.total, s.paid);
    var can := Withdrawable(p, s.supply.active, s.paid, s.borrow.borrowed);
    var wanted := Min(requested, entitled);
    if entitled == 0 then EmptyPosition
    else if can.None? || can.value == 0 then NoLiquidity
    else if wanted > can.value then PaidInPart(wanted - can.value)
    else PaidInFull
  }

  function WithdrawOutcome(s: State, c: Config, a: Account, requested: nat): (r: Outcome)
    requires Inv(s, c)
  {
    TouchedKeeps(s.supply, s.snaps, c.weights, a);
    if a !in s.supply.positions then NoPosition
    else AttemptOutcome(s.(supply := Touched(s.supply, s.snaps, c.weights, a)), a, requested)
  }

  lemma PlanFits(p: SupplyPosition, paid: nat, amount: nat)
    requires amount <= TotalIncoming(p.incoming) + p.active + Min(p.earned.total, paid)
    ensures var plan := PlanOf(p, paid, amount);
            && plan.fromYield <= p.earned.total && plan.fromYield <= paid
            && plan.fromIncoming <= TotalIncoming(p.incoming) && plan.fromActive <= p.active
            && PlanAmount(plan) == amount
  {}

  lemma SendOutKeeps(s: State, c: Config, a: Account, amount: nat, fee: nat)
    requires Inv(s, c) && a in s.supply.positions && s.supply.positions[a].earned.next == |s.snaps|
    requires var p := s.supply.positions[a];
             amount <= TotalIncoming(p.incoming) + p.active + Min(p.earned.total, s.paid)
    ensures SendOut(s, a, amount, fee).None? <==> s.balance < amount - Min(fee, amount)
    ensures SendOut(s, a, amount, fee).Some? ==> Inv(SendOut(s, a, amount, fee).value, c)
  {
    hide SupplyInv, BorrowInv, StaticInv, SumBy, TotalIncoming, Remove, DepositTotal, PendingToAccounts, Distributed;
    PlanFits(s.supply.positions[a], s.paid, amount);
    var plan := PlanOf(s.supply.positions[a], s.paid, amount);
    hide PlanOf;
    var receipt := Withdrawal(a, amount - Min(fee, amount), Min(fee, amount));
    RemoveKeeps(s.supply, s.snaps, c.weights, plan.fromYield, plan.fromIncoming, plan.fromActive, receipt);
    RemovePending(s.supply, plan, receipt);
    PendingAppend(s.supply.pending, receipt, a);
  }

  lemma TouchedInv(s: State, c: Config, a: Account)
    requires Inv(s, c)
    ensures TimesOrdered(s.snaps) && c.weights.total > 0
    ensures a in s.supply.positions ==> WellFormed(s.supply.positions[a], |s.snaps|)
    ensures var t := Touched(s.supply, s.snaps, c.weights, a);
            && Inv(s.(supply := t), c) && t.positions.Keys == s.supply.positions.Keys
            && (a in t.positions ==> t.positions[a].earned.next == |s.snaps|)
  {
    hide SupplyInv, BorrowInv, StaticInv, SumBy, TotalIncoming, DepositTotal, PendingToAccounts, Distributed;
    TouchedKeeps(s.supply, s.snaps, c.weights, a);
    hide Touched;
  }

  lemma WithdrawStartKeeps(s: State, c: Config, a: Account, requested: nat, fee: nat)
    requires Inv(s, c) && WithdrawStart(s, c, a, requested, fee).Some?
    ensures Inv(WithdrawStart(s, c, a, requested, fee).value, c)
  {
    hide Inv, Touched, SendOut, TotalIncoming, WellFormed;
    TouchedInv(s, c, a);
    if a in s.supply.positions {
      var t := s.(supply := Touched(s.supply, s.snaps, c.weights, a));
      var can := Withdrawable(t.supply.positions[a], t.supply.active, s.paid, s.borrow.borrowed);
      if can.Some? {
        SendOutKeeps(t, c, a, Min(requested, can.value), fee);
      }
    }
  }

  lemma RemovePending(t: SupplySide, plan: Plan, receipt: Withdrawal)
    requires receipt.account in t.positions
    ensures var r := Remove(t, plan.fromYield, plan.fromIncoming, plan.fromActive, receipt);
            r.Some? ==> r.value.pending == t.pending + [receipt] && r.value.taken == t.taken + plan.fromYield
  {
    hide RemoveIncoming;
  }

  /** Settles the receipt `k` in the callback of its transfer. */
  function WithdrawEnd(s: State, c: Config, k: nat, success: bool): (r: Option<State>)
    requires c.protocol in s.statics.records
  {
    if k >= |s.supply.pending| then None else
      var receipt := s.supply.pending[k];
      var r := Settle(s.supply, |s.snaps|, k, success);
      if r.None? || s.withdrawing < receipt.toAccount then None
      else
        var t := s.(supply := r.value, withdrawing := s.withdrawing - receipt.toAccount);
        if success then Some(t.(statics := Receive(s.statics, c.protocol, receipt.toFees)))
        else Some(t.(balance := s.balance + receipt.toAccount))
  }

  /** Settling panics exactly when a failed transfer comes back to a position without
      room for another incoming entry. */
  lemma WithdrawEndKeeps(s: State, c: Config, k: nat, success: bool)
    requires Inv(s, c) && k < |s.supply.pending|
    ensures var a := s.supply.pending[k].account;
            WithdrawEnd(s, c, k, success).None? <==>
            !success && a in s.supply.positions && Full(s.supply.positions[a], |s.snaps|)
    ensures WithdrawEnd(s, c, k, success).Some? ==> Inv(WithdrawEnd(s, c, k, success).value, c)
  {
    hide SupplyInv, BorrowInv, StaticInv, SumBy, TotalIncoming, Settle, Full, PendingToAccounts;
    var receipt := s.supply.pending[k];
    SettleKeeps(s.supply, s.snaps, c.weights, k, success);
    SettledPending(s.supply, |s.snaps|, k, success);
    PendingRemove(s.supply.pending, k, receipt.account);
    if WithdrawEnd(s, c, k, success).Some? && success {
      ReceiveKeeps(s.statics, s.snaps, c.weights, c.protocol, receipt.toFees);
    }
  }

  lemma SettledPending(s: SupplySide, count: nat, k: nat, success: bool)
    requires k < |s.pending|
    ensures Settle(s, count, k, success).Some? ==>
              && Settle(s, count, k, success).value.pending == RemoveAt(s.pending, k)
              && Settle(s, count, k, success).value.taken == s.taken
  {
    hide AddOwn, AddMarket, Removable, RemoveAt;
  }

  /** A withdrawal sent out and whether its transfer succeeded. */
  datatype Resolution = Resolution(receipt: Withdrawal, success: bool)

  function ReceiptsIn(batch: seq<Resolution>): (r: seq<Withdrawal>) {
    if batch == [] then [] else [batch[0].receipt] + ReceiptsIn(batch[1..])
  }

  function FindReceipt(pending: seq<Withdrawal>, receipt: Withdrawal): (k: nat)
    ensures k < |pending| <==> receipt in pending
    ensures k < |pending| ==> pending[k] == receipt
  {
    if pending == [] then 0
    else if pending[0] == receipt then 0
    else 1 + FindReceipt(pending[1..], receipt)
  }

  lemma RemovedReceipt(pending: seq<Withdrawal>, k: nat)
    requires k < |pending|
    ensures multiset(RemoveAt(pending, k)) + multiset{pending[k]} == multiset(pending)
  {
    assert pending == pending[..k] + [pending[k]] + pending[k + 1..];
    assert RemoveAt(pending, k) == pending[..k] + pending[k + 1..];
  }

  function Resolve(s: State, c: Config, r: Resolution): (t: Option<State>)
    requires Inv(s, c)
    ensures t.Some? ==> Inv(t.value, c)
  {
    var k := FindReceipt(s.supply.pending, r.receipt);
    if k >= |s.supply.pending| then None else
      WithdrawEndKeeps(s, c, k, r.success);
      WithdrawEnd(s, c, k, r.success)
  }

  /** The callback that all transfers of one execution of the queue share: it settles
      them one after the other, and where one panics none is settled. */
  function WithdrawalsEnd(s: State, c: Config, batch: seq<Resolution>): (t: Option<State>)
    requires Inv(s, c)
    ensures t.Some? ==> Inv(t.value, c)
    decreases |batch|
  {
    if batch == [] then Some(s) else
      var t := Resolve(s, c, batch[0]);
      if t.None? then None else WithdrawalsEnd(t.value, c, batch[1..])
  }

  /** What settling leaves alone. */
  ghost predicate Undisturbed(s: State, t: State) {
    && t.supply.active == s.supply.active && t.borrow == s.borrow && t.paid == s.paid && t.snaps == s.snaps
    && t.distribution == s.distribution && t.surplus == s.surplus && t.feesPaid == s.feesPaid
  }

  lemma ResolveSame(s: State, c: Config, r: Resolution)
    requires Inv(s, c) && Resolve(s, c, r).Some?
    ensures Undisturbed(s, Resolve(s, c, r).value)
  {
    hide SupplyInv, BorrowInv, StaticInv, Conserved, Funded, Settle, Receive, FindReceipt, PendingToAccounts;
    SettleKeeps(s.supply, s.snaps, c.weights, FindReceipt(s.supply.pending, r.receipt), r.success);
  }

  lemma {:induction false} WithdrawalsEndSame(s: State, c: Config, batch: seq<Resolution>)
    requires Inv(s, c) && WithdrawalsEnd(s, c, batch).Some?
    ensures Undisturbed(s, WithdrawalsEnd(s, c, batch).value)
    decreases |batch|
  {
    hide Inv, Resolve;
    if batch != [] {
      ResolveSame(s, c, batch[0]);
      WithdrawalsEndSame(Resolve(s, c, batch[0]).value, c, batch[1..]);
    }
  }

  function Harvest(s: State, c: Config, a: Account, limit: nat): (r: Option<State>)
    requires Inv(s, c)
  {
    if a !in s.supply.positions then Some(s)
    else if limit == 0 then None
    else
      AccrueSupplyKeeps(s.supply, s.snaps, c.weights, a, limit);
      Some(s.(supply := AccrueSupply(s.supply, s.snaps, c.weights, a, limit)))
  }

  lemma HarvestKeeps(s: State, c: Config, a: Account, limit: nat)
    requires Inv(s, c) && Harvest(s, c, a, limit).Some?
    ensures Inv(Harvest(s, c, a, limit).value, c)
  {
    hide SupplyInv, BorrowInv, StaticInv, SumBy, TotalIncoming, WellFormed;
    if a in s.supply.positions {
      AccrueSupplyKeeps(s.supply, s.snaps, c.weights, a, limit);
      hide AccrueYield, AddUsed, AddCredited;
    }
  }

  // ---- Borrowers ----

  /** The part of the active deposits that must stay in the market. */
  function Retained(active: nat, usage: nat): (r: nat)
    requires usage <= TWO_128
  {
    MulNat(TWO_128 - usage, active);
    ((TWO_128 - usage) * active + TWO_128 - 1) / TWO_128
  }

  function Available(active: nat, borrowed: nat, usage: nat): (r: nat)
    requires usage <= TWO_128
  {
    Monus(Monus(active, borrowed), Retained(active, usage))
  }

  /** The side with the interest of `a` charged, if there is such a position. */
  function Guard(s: State, c: Config, a: Account): (r: Option<BorrowSide>)
    requires Inv(s, c)
  {
    ChargedKeeps(s.borrow, s.snaps, a);
    if a in s.borrow.positions then Some(Charged(s.borrow, s.snaps, a)) else None
  }

  lemma GuardKeeps(s: State, c: Config, a: Account)
    requires Inv(s, c) && Guard(s, c, a).Some?
    ensures var b := Guard(s, c, a).value;
            && BorrowInv(b, s.snaps) && a in b.positions && b.positions[a].interest.next == |s.snaps|
            && b.borrowed == s.borrow.borrowed && b.inFlight == s.borrow.inFlight && b.collateral == s.borrow.collateral
            && b.fees == s.borrow.fees && b.repaid == s.borrow.repaid
            && b.lending == s.borrow.lending && b.returning == s.borrow.returning
            && b.positions.Keys == s.borrow.positions.Keys
  {
    hide SupplyInv, BorrowInv, StaticInv, Charged, Conserved;
    ChargedKeeps(s.borrow, s.snaps, a);
  }

  ghost predicate SameTotals(b: BorrowSide, c: BorrowSide) {
    b.borrowed == c.borrowed && b.inFlight == c.inFlight && b.collateral == c.collateral
  }

  /** The position of `a` as every guarded call finds it. */
  ghost function UpToDate(s: State, a: Account): (p: BorrowPosition)
    requires a in s.borrow.positions && TimesOrdered(s.snaps) && Sound(s.borrow.positions[a], |s.snaps|)
  {
    var p := s.borrow.positions[a];
    p.(interest := AccrueInterest(p.interest, Owed(p), s.snaps, U32_MAX))
  }

  lemma GuardFields(s: State, c: Config, a: Account)
    requires Inv(s, c)
    ensures TimesOrdered(s.snaps)
    ensures Guard(s, c, a).Some? <==> a in s.borrow.positions
    ensures a in s.borrow.positions ==>
              && Sound(s.borrow.positions[a], |s.snaps|)
              && var b := Guard(s, c, a).value;
                 b.positions == s.borrow.positions[a := UpToDate(s, a)] && SameTotals(b, s.borrow)
  {
    hide SupplyInv, BorrowInv, StaticInv, Conserved, Funded, AccrueInterest, AddOwed, AddCharged, Sound;
    ChargedKeeps(s.borrow, s.snaps, a);
  }

  function ApplyInterest(s: State, c: Config, a: Account, limit: nat): (r: Option<State>)
    requires Inv(s, c)
  {
    if a !in s.borrow.positions then Some(s)
    else
      AccrueBorrowKeeps(s.borrow, s.snaps, a, limit);
      Some(s.(borrow := AccrueBorrow(s.borrow, s.snaps, a, limit)))
  }

  lemma ApplyInterestKeeps(s: State, c: Config, a: Account, limit: nat)
    requires Inv(s, c)
    ensures ApplyInterest(s, c, a, limit).Some? && Inv(ApplyInterest(s, c, a, limit).value, c)
  {
    hide SupplyInv, BorrowInv, StaticInv, SumBy, TotalIncoming, Sound;
    if a in s.borrow.positions {
      AccrueBorrowKeeps(s.borrow, s.snaps, a, limit);
      hide AccrueInterest, AddOwed, AddCharged;
    }
  }

  /** `safe` stands for the check that the position cannot be liquidated afterwards. */
  function Collateralize(s: State, c: Config, a: Account, amount: nat, safe: bool): (r: Option<State>)
    requires Inv(s, c)
  {
    ChargedKeeps(s.borrow, s.snaps, a);
    if !safe then None else Some(s.(borrow := AddCollateral(Charged(s.borrow, s.snaps, a), a, amount)))
  }

  /** Depositing collateral panics exactly when the position can still be liquidated. */
  lemma CollateralizeKeeps(s: State, c: Config, a: Account, amount: nat, safe: bool)
    requires Inv(s, c)
    ensures Collateralize(s, c, a, amount, safe).None? <==> !safe
    ensures safe ==> Inv(Collateralize(s, c, a, amount, safe).value, c)
  {
    hide SupplyInv, BorrowInv, StaticInv, SumBy, TotalIncoming, Charged;
    ChargedKeeps(s.borrow, s.snaps, a);
    AddCollateralKeeps(Charged(s.borrow, s.snaps, a), s.snaps, a, amount);
  }

  /** `permitted` stands for the check that the position is healthy afterwards. */
  function CollateralStart(s: State, c: Config, a: Account, amount: nat, permitted: bool): (r: Option<State>)
    requires Inv(s, c)
  {
    var b := Guard(s, c, a);
    if b.None? || !permitted then None else
      GuardKeeps(s, c, a);
      var r := SendCollateral(b.value, a, amount);
      if r.None? then None else Some(s.(borrow := r.value))
  }

  lemma CollateralStartKeeps(s: State, c: Config, a: Account, amount: nat, permitted: bool)
    requires Inv(s, c) && CollateralStart(s, c, a, amount, permitted).Some?
    ensures Inv(CollateralStart(s, c, a, amount, permitted).value, c)
  {
    hide SupplyInv, BorrowInv, StaticInv, SumBy, TotalIncoming, Guard;
    GuardKeeps(s, c, a);
    SendCollateralKeeps(Guard(s, c, a).value, s.snaps, a, amount);
  }

  function CollateralEnd(s: State, c: Config, k: nat, success: bool): (r: Option<State>)
    requires Inv(s, c)
  {
    if k >= |s.borrow.returning| then None else
      var b := Guard(s, c, s.borrow.returning[k].account);
      if b.None? then None else
        GuardKeeps(s, c, s.borrow.returning[k].account);
        var r := SettleCollateral(b.value, k, success);
        if r.None? then None else Some(s.(borrow := r.value))
  }

  lemma CollateralEndKeeps(s: State, c: Config, k: nat, success: bool)
    requires Inv(s, c) && CollateralEnd(s, c, k, success).Some?
    ensures Inv(CollateralEnd(s, c, k, success).value, c)
  {
    hide SupplyInv, BorrowInv, StaticInv, SumBy, TotalIncoming, Guard, Dropped, RemoveAt;
    GuardKeeps(s, c, s.borrow.returning[k].account);
    var b := Guard(s, c, s.borrow.returning[k].account).value;
    SettleCollateralKeeps(b, s.snaps, k, success);
    DroppedSame(b, k, success);
    hide SettleCollateral;
  }

  lemma DroppedSame(b: BorrowSide, k: nat, success: bool)
    requires k < |b.returning| && SettleCollateral(b, k, success).Some?
    ensures var r := SettleCollateral(b, k, success).value;
            r.borrowed == b.borrowed && r.inFlight == b.inFlight && r.fees == b.fees && r.repaid == b.repaid
  {
    hide RemoveAt, Exists;
  }

  /** `permitted` stands for the checks of health and of the largest loan. */
  function BorrowStart(s: State, c: Config, a: Account, amount: nat, fees: nat, permitted: bool): (r: Option<State>)
    requires Inv(s, c)
  {
    var b := Guard(s, c, a);
    if b.None? || amount == 0 || !permitted then None else
      GuardKeeps(s, c, a);
      if amount > Available(s.supply.active, s.borrow.borrowed + s.borrow.inFlight, c.usage)
         || Owed(b.value.positions[a]) + amount < c.minimum || s.balance < amount then None
      else Some(s.(borrow := Lend(b.value, a, amount, fees), distribution := s.distribution + fees,
                   balance := s.balance - amount))
  }

  lemma BorrowStartKeeps(s: State, c: Config, a: Account, amount: nat, fees: nat, permitted: bool)
    requires Inv(s, c) && BorrowStart(s, c, a, amount, fees, permitted).Some?
    ensures Inv(BorrowStart(s, c, a, amount, fees, permitted).value, c)
  {
    hide SupplyInv, BorrowInv, StaticInv, SumBy, TotalIncoming, Guard, Available;
    GuardKeeps(s, c, a);
    LendKeeps(Guard(s, c, a).value, s.snaps, a, amount, fees);
  }

  function BorrowEnd(s: State, c: Config, k: nat, success: bool, now: nat): (r: Option<State>)
    requires Inv(s, c)
  {
    if k >= |s.borrow.lending| then None else
      var receipt := s.borrow.lending[k];
      var b := Guard(s, c, receipt.account);
      if b.None? then None else
        GuardKeeps(s, c, receipt.account);
        var r := SettleLoan(b.value, k, success, now);
        if r.None? then None
        else Some(s.(borrow := r.value, balance := s.balance + if success then 0 else receipt.amount))
  }

  lemma BorrowEndKeeps(s: State, c: Config, k: nat, success: bool, now: nat)
    requires Inv(s, c) && BorrowEnd(s, c, k, success, now).Some?
    ensures Inv(BorrowEnd(s, c, k, success, now).value, c)
  {
    hide SupplyInv, BorrowInv, StaticInv, SumBy, TotalIncoming, Guard, SettleLoan;
    GuardKeeps(s, c, s.borrow.lending[k].account);
    SettleLoanKeeps(Guard(s, c, s.borrow.lending[k].account).value, s.snaps, k, success, now);
  }

  /** A payment for an account without a position is returned whole; `safe` stands for
      the check that the position cannot be liquidated. */
  function Repay(s: State, c: Config, a: Account, amount: nat, safe: bool): (r: Option<State>)
    requires Inv(s, c)
  {
    var b := Guard(s, c, a);
    if b.None? then Some(s)
    else if !safe then None
    else
      GuardKeeps(s, c, a);
      var r := Pay(b.value, a, amount, c.minimum);
      if r.None? || s.balance + amount < r.value.1.toRefund then None
      else Some(s.(borrow := r.value.0, balance := s.balance + amount - r.value.1.toRefund,
                   paid := s.paid + r.value.1.toFees + r.value.1.toInterest,
                   feesPaid := s.feesPaid + r.value.1.toFees))
  }

  /** A repayment panics exactly when it is for a position that can be liquidated. */
  lemma RepayKeeps(s: State, c: Config, a: Account, amount: nat, safe: bool)
    requires Inv(s, c)
    ensures Repay(s, c, a, amount, safe).None? <==> a in s.borrow.positions && !safe
    ensures Repay(s, c, a, amount, safe).Some? ==> Inv(Repay(s, c, a, amount, safe).value, c)
  {
    hide SupplyInv, BorrowInv, StaticInv, SumBy, TotalIncoming, Guard, Pay;
    GuardCollateral(s, c, a);
    if Guard(s, c, a).Some? {
      GuardKeeps(s, c, a);
      PayKeeps(Guard(s, c, a).value, s.snaps, a, amount, c.minimum);
      PaySplits(Guard(s, c, a).value, a, amount, c.minimum);
    }
  }

  lemma PaySplits(b: BorrowSide, a: Account, amount: nat, minimum: nat)
    requires a in b.positions && Pay(b, a, amount, minimum).Some?
    ensures var (_, r) := Pay(b, a, amount, minimum).value;
            && Split(b.positions[a], amount, minimum) == Some(r)
            && r.toFees + r.toInterest + r.toPrincipal + r.toRefund == amount
  {
    SplitIsExact(b.positions[a], amount, minimum);
    hide Split;
  }

  /** Takes collateral out of the position of `a` and pays into it what it fetched. */
  function Seize(b: BorrowSide, a: Account, seized: nat, recovered: nat, minimum: nat)
    : (r: Option<(BorrowSide, Reduction)>)
    requires a in b.positions
  {
    var taken := TakeCollateral(b, a, seized);
    if taken.None? then None else
      var r := Pay(taken.value, a, recovered, minimum);
      if r.None? then None else Some((Dropped(r.value.0, a), r.value.1))
  }

  lemma SeizeKeeps(b: BorrowSide, snaps: seq<Snapshot>, a: Account, seized: nat, recovered: nat, minimum: nat)
    requires BorrowInv(b, snaps) && a in b.positions && b.positions[a].interest.next == |snaps|
    ensures Seize(b, a, seized, recovered, minimum).None? <==> seized > b.positions[a].collateral
    ensures Seize(b, a, seized, recovered, minimum).Some? ==>
              var (c, r) := Seize(b, a, seized, recovered, minimum).value;
              && BorrowInv(c, snaps) && c.borrowed == b.borrowed - r.toPrincipal && c.inFlight == b.inFlight
              && c.fees + r.toFees == b.fees && c.repaid == b.repaid + r.toInterest
              && r.toFees + r.toInterest + r.toPrincipal + r.toRefund == recovered
  {
    hide BorrowInv, Pay, Dropped;
    TakeCollateralKeeps(b, snaps, a, seized);
    if seized <= b.positions[a].collateral {
      var taken := TakeCollateral(b, a, seized).value;
      PayKeeps(taken, snaps, a, recovered, minimum);
      PaySplits(taken, a, recovered, minimum);
      var paid := Pay(taken, a, recovered, minimum).value.0;
      DroppedKeeps(paid, snaps, a);
      DroppedTotals(paid, a);
    }
  }

  /** A liquidator sends `sent` for the collateral `seized`, of which no more than
      `liquidatable` may go, at a price between `least` and `most`. */
  datatype Offer = Offer(eligible: bool, liquidatable: nat, sent: nat, seized: nat, least: nat, most: nat)

  predicate Acceptable(o: Offer) {
    o.eligible && o.seized <= o.liquidatable && o.sent >= o.least
  }

  function Recovered(o: Offer): (r: nat) {
    Min(o.sent, o.most)
  }

  function Liquidate(s: State, c: Config, a: Account, o: Offer): (r: Option<State>)
    requires Inv(s, c)
  {
    var b := Guard(s, c, a);
    if b.None? || !Acceptable(o) then None else
      GuardKeeps(s, c, a);
      var r := Seize(b.value, a, o.seized, Recovered(o), c.minimum);
      if r.None? then None
      else
        var split := r.value.1;
        Some(s.(borrow := r.value.0, balance := s.balance + Recovered(o),
                paid := s.paid + split.toFees + split.toInterest, feesPaid := s.feesPaid + split.toFees,
                surplus := s.surplus + split.toRefund, distribution := s.distribution + split.toRefund))
  }

  /** A liquidation fails exactly when there is no position, the offer is not acceptable,
      or more than the position's collateral is asked for. */
  lemma LiquidateKeeps(s: State, c: Config, a: Account, o: Offer)
    requires Inv(s, c)
    ensures Liquidate(s, c, a, o).Some? <==>
            a in s.borrow.positions && Acceptable(o) && o.seized <= s.borrow.positions[a].collateral
    ensures Liquidate(s, c, a, o).Some? ==> Inv(Liquidate(s, c, a, o).value, c)
  {
    hide SupplyInv, BorrowInv, StaticInv, SumBy, TotalIncoming, Guard, Seize, Acceptable, Recovered;
    GuardCollateral(s, c, a);
    if a in s.borrow.positions {
      GuardKeeps(s, c, a);
      SeizeKeeps(Guard(s, c, a).value, s.snaps, a, o.seized, Recovered(o), c.minimum);
    }
  }

  lemma GuardCollateral(s: State, c: Config, a: Account)
    requires Inv(s, c)
    ensures Guard(s, c, a).Some? <==> a in s.borrow.positions
    ensures a in s.borrow.positions ==>
              && a in Guard(s, c, a).value.positions
              && Guard(s, c, a).value.positions[a].collateral == s.borrow.positions[a].collateral
  {
    hide SupplyInv, StaticInv, Conserved, Funded, AccrueInterest, AddOwed, AddCharged, Sound, BorrowInv;
    ChargedKeeps(s.borrow, s.snaps, a);
  }

  lemma DroppedTotals(b: BorrowSide, a: Account)
    ensures var r := Dropped(b, a);
            && r.borrowed == b.borrowed && r.inFlight == b.inFlight && r.collateral == b.collateral
            && r.fees == b.fees && r.repaid == b.repaid
  {}

  // ---- Static accounts ----

  function StaticAccrue(s: State, c: Config, a: Account, limit: nat): (r: Option<State>)
    requires Inv(s, c)
  {
    if a !in s.statics.records || s.statics.records[a].weight.None? then None
    else
      AccrueStaticKeeps(s.statics, s.snaps, c.weights, a, limit);
      Some(s.(statics := AccrueStatic(s.statics, s.snaps, c.weights.total, a, limit)))
  }

  /** Crediting panics exactly for accounts without a static weight. */
  lemma StaticAccrueKeeps(s: State, c: Config, a: Account, limit: nat)
    requires Inv(s, c)
    ensures StaticAccrue(s, c, a, limit).Some? <==> a in s.statics.records && s.statics.records[a].weight.Some?
    ensures StaticAccrue(s, c, a, limit).Some? ==> Inv(StaticAccrue(s, c, a, limit).value, c)
  {
    hide SupplyInv, BorrowInv, StaticInv, SumBy, TotalIncoming, SoundRecord;
    if StaticAccrue(s, c, a, limit).Some? {
      AccrueStaticKeeps(s.statics, s.snaps, c.weights, a, limit);
      hide Accumulate, AddOwed, AddStatic;
    }
  }

  function StaticStart(s: State, a: Account, amount: nat): (r: Option<State>) {
    var t := Withdraw(s.statics, a, amount);
    if t.None? || s.balance < amount then None
    else Some(s.(statics := t.value, balance := s.balance - amount))
  }

  lemma StaticStartKeeps(s: State, c: Config, a: Account, amount: nat)
    requires Inv(s, c) && StaticStart(s, a, amount).Some?
    ensures Inv(StaticStart(s, a, amount).value, c)
  {
    hide SupplyInv, BorrowInv, StaticInv, SumBy, TotalIncoming;
    WithdrawKeeps(s.statics, s.snaps, c.weights, a, amount);
  }

  function StaticEnd(s: State, k: nat, success: bool): (r: Option<State>) {
    if k >= |s.statics.pending| then None else
      var t := SettleWithdrawal(s.statics, k, success);
      if t.None? then None
      else Some(s.(statics := t.value, balance := s.balance + if success then 0 else s.statics.pending[k].amount))
  }

  lemma StaticEndKeeps(s: State, c: Config, k: nat, success: bool)
    requires Inv(s, c) && StaticEnd(s, k, success).Some?
    ensures Inv(StaticEnd(s, k, success).value, c)
  {
    hide SupplyInv, BorrowInv, StaticInv, SumBy, TotalIncoming, RemoveAt;
    SettleWithdrawalKeeps(s.statics, s.snaps, c.weights, k, success);
  }
}
