/**
 Whole runs of the market: any sequence of calls, callbacks and snapshots, in any
 order and with any outcome of the transfers. The invariant holds throughout, and
 with it what the market promises about cash, totals and yield.
 */
module MarketRuns {
  import opened Arith
  import opened Sums
  import opened Market

  datatype Step =
    | Finalize(now: nat, rate: nat)
    | Supplied(account: Account, amount: nat, now: nat)
    | WithdrawalStarted(account: Account, requested: nat, fee: nat)
    | WithdrawalsEnded(batch: seq<Resolution>)
    | Harvested(account: Account, limit: nat)
    | Collateralized(account: Account, amount: nat, safe: bool)
    | CollateralStarted(account: Account, amount: nat, permitted: bool)
    | CollateralEnded(k: nat, success: bool)
    | BorrowStarted(account: Account, amount: nat, fees: nat, permitted: bool)
    | BorrowEnded(k: nat, success: bool, now: nat)
    | Repaid(account: Account, amount: nat, safe: bool)
    | Liquidated(account: Account, offer: Offer)
    | InterestApplied(account: Account, limit: nat)
    | StaticAccrued(account: Account, limit: nat)
    | StaticStarted(account: Account, amount: nat)
    | StaticEnded(k: nat, success: bool)

  function Next(s: State, c: Config, step: Step): (r: Option<State>)
    requires Inv(s, c)
  {
    match step
    case Finalize(now, rate) => Tick(s, now, rate)
    case Supplied(a, amount, now) => Supply(s, c, a, amount, now)
    case WithdrawalStarted(a, requested, fee) => WithdrawStart(s, c, a, requested, fee)
    case WithdrawalsEnded(batch) => WithdrawalsEnd(s, c, batch)
    case Harvested(a, limit) => Harvest(s, c, a, limit)
    case Collateralized(a, amount, safe) => Collateralize(s, c, a, amount, safe)
    case CollateralStarted(a, amount, permitted) => CollateralStart(s, c, a, amount, permitted)
    case CollateralEnded(k, success) => CollateralEnd(s, c, k, success)
    case BorrowStarted(a, amount, fees, permitted) => BorrowStart(s, c, a, amount, fees, permitted)
    case BorrowEnded(k, success, now) => BorrowEnd(s, c, k, success, now)
    case Repaid(a, amount, safe) => Repay(s, c, a, amount, safe)
    case Liquidated(a, offer) => Liquidate(s, c, a, offer)
    case InterestApplied(a, limit) => ApplyInterest(s, c, a, limit)
    case StaticAccrued(a, limit) => StaticAccrue(s, c, a, limit)
    case StaticStarted(a, amount) => StaticStart(s, a, amount)
    case StaticEnded(k, success) => StaticEnd(s, k, success)
  }

  /** Every step keeps the invariant. */
  lemma NextKeeps(s: State, c: Config, step: Step)
    requires Inv(s, c) && Next(s, c, step).Some?
    ensures Inv(Next(s, c, step).value, c)
  {
    assert s.snaps != [];
    hide Inv, Tick, Supply, WithdrawStart, WithdrawalsEnd, Harvest, Collateralize, CollateralStart, CollateralEnd;
    hide BorrowStart, BorrowEnd, Repay, Liquidate, ApplyInterest, StaticAccrue, StaticStart, StaticEnd;
    match step
    case Finalize(now, rate) => TickKeeps(s, c, now, rate);
    case Supplied(a, amount, now) => SupplyKeeps(s, c, a, amount, now);
    case WithdrawalStarted(a, requested, fee) => WithdrawStartKeeps(s, c, a, requested, fee);
    case WithdrawalsEnded(batch) =>
    case Harvested(a, limit) => HarvestKeeps(s, c, a, limit);
    case Collateralized(a, amount, safe) => CollateralizeKeeps(s, c, a, amount, safe);
    case CollateralStarted(a, amount, permitted) => CollateralStartKeeps(s, c, a, amount, permitted);
    case CollateralEnded(k, success) => CollateralEndKeeps(s, c, k, success);
    case BorrowStarted(a, amount, fees, permitted) => BorrowStartKeeps(s, c, a, amount, fees, permitted);
    case BorrowEnded(k, success, now) => BorrowEndKeeps(s, c, k, success, now);
    case Repaid(a, amount, safe) => RepayKeeps(s, c, a, amount, safe);
    case Liquidated(a, offer) => LiquidateKeeps(s, c, a, offer);
    case InterestApplied(a, limit) => ApplyInterestKeeps(s, c, a, limit);
    case StaticAccrued(a, limit) => StaticAccrueKeeps(s, c, a, limit);
    case StaticStarted(a, amount) => StaticStartKeeps(s, c, a, amount);
    case StaticEnded(k, success) => StaticEndKeeps(s, c, k, success);
  }

  /** The state after a call; one that panics changes nothing. */
  function After(s: State, c: Config, step: Step): (r: State)
    requires Inv(s, c)
    ensures Inv(r, c)
  {
    var r := Next(s, c, step);
    if r.None? then s
    else
      NextKeeps(s, c, step);
      r.value
  }

  /** The state after a sequence of calls. */
  function Run(s: State, c: Config, steps: seq<Step>): (r: State)
    requires Inv(s, c)
    ensures Inv(r, c)
    decreases |steps|
  {
    if steps == [] then s else Run(After(s, c, steps[0]), c, steps[1..])
  }

  lemma {:induction false} RunInTwo(s: State, c: Config, first: seq<Step>, second: seq<Step>)
    requires Inv(s, c)
    ensures Run(s, c, first + second) == Run(Run(s, c, first), c, second)
    decreases |first|
  {
    hide Inv, After;
    if first == [] {
      assert first + second == second;
    } else {
      assert (first + second)[0] == first[0] && (first + second)[1..] == first[1..] + second;
      RunInTwo(After(s, c, first[0]), c, first[1..], second);
    }
  }

  // ---- Single steps ----

  lemma RunOne(s: State, c: Config, step: Step)
    requires Inv(s, c)
    ensures Run(s, c, [step]) == After(s, c, step)
  {
    hide Inv, After;
    assert [step][1..] == [];
  }

  lemma NextTick(s: State, c: Config, now: nat, rate: nat)
    requires Inv(s, c)
    ensures s.snaps != [] && Next(s, c, Finalize(now, rate)) == Tick(s, now, rate)
  {}

  lemma NextSupply(s: State, c: Config, a: Account, amount: nat, now: nat)
    requires Inv(s, c)
    ensures Next(s, c, Supplied(a, amount, now)) == Supply(s, c, a, amount, now)
  {}

  lemma NextBorrowEnd(s: State, c: Config, step: Step)
    requires Inv(s, c) && step.BorrowEnded?
    ensures Next(s, c, step) == BorrowEnd(s, c, step.k, step.success, step.now)
  {}

  lemma NextWithdrawStart(s: State, c: Config, step: Step)
    requires Inv(s, c) && step.WithdrawalStarted?
    ensures Next(s, c, step) == WithdrawStart(s, c, step.account, step.requested, step.fee)
  {}

  lemma NextCollateralEnd(s: State, c: Config, k: nat, success: bool)
    requires Inv(s, c)
    ensures Next(s, c, CollateralEnded(k, success)) == CollateralEnd(s, c, k, success)
  {}
}
