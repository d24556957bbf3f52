/**
 A run after which a withdrawal cannot come back: its transfer fails, but the position
 is full of incoming entries left by earlier failures, and the callback panics. The
 same callback was to settle the withdrawal of another supplier, who is stranded with it.
 */
module StrandedWithdrawal {
  import opened Arith
  import opened Sums
  import opened Accrual
  import opened SupplyLedger
  import opened SupplySteps
  import opened BorrowLedger
  import opened StaticLedger
  import opened Market
  import opened MarketRuns
  import opened Schedule
  import opened Withdrawals
  import opened WithdrawalBatches
  import opened ExampleMarket

  // ---- Two suppliers ----

  /** A position right after its first deposit. */
  function Fresh(amount: nat): (p: SupplyPosition) {
    SupplyPosition(Some(11), 0, [Incoming(2, amount)], 0, Accumulator(0, 0, 1))
  }

  /** Beside the twenty of `a`, one unit of `b`. */
  function Both(a: Account, b: Account): (s: State) {
    Deposited(a).(
      supply := SupplySide(map[a := Fresh(20), b := Fresh(1)], 0, [Incoming(2, 21)], [], [0], [0], 0, 0),
      balance := 21)
  }

  function BothActive(a: Account, b: Account): (s: State) {
    Finalized(a).(
      supply := Both(a, b).supply.(active := 21, incoming := [], used := [0, 0], credited := [0, 0]),
      balance := 21)
  }

  lemma SecondDeposit(a: Account, b: Account)
    requires a != b && Inv(Deposited(a), Plain(a))
    ensures Next(Deposited(a), Plain(a), Supplied(b, 1, 11)) == Some(Both(a, b))
  {
    hide Inv;
    OneEntry(Incoming(2, 1));
    var none: seq<Incoming> := [];
    assert none + [Incoming(2, 1)] == [Incoming(2, 1)];
    assert [Incoming(2, 20)][0 := Incoming(2, 21)] == [Incoming(2, 21)];
    var s := Deposited(a);
    assert Touched(s.supply, s.snaps, Plain(a).weights, b) == s.supply;
    assert Deposit(s.supply, 1, b, 1, 11) == Some(Both(a, b).supply) by {
      var p := NewPosition(1).(started := Some(11));
      assert s.supply.positions[b := p][b := p.(incoming := [Incoming(2, 1)])] == Both(a, b).supply.positions;
    }
  }

  lemma FinalizeBoth(a: Account, b: Account)
    requires a != b && Inv(Both(a, b), Plain(a))
    ensures Next(Both(a, b), Plain(a), Finalize(20, 0)) == Some(BothActive(a, b))
  {
    hide Inv;
    OneEntry(Incoming(2, 21));
    assert RemoveAt([Incoming(2, 21)], 0) == [];
    assert FindAt([Incoming(2, 21)], 1) == 1;
    assert [0] + [0] == [0, 0];
    var snap := Snapshot(START, 0, 0, 0, 0);
    assert [snap] + [Snapshot(20, 0, 0, 0, 0)] == [snap, Snapshot(20, 0, 0, 0, 0)];
  }

  function Deposits(a: Account, b: Account): (r: seq<Step>) {
    [Supplied(a, 20, 11)] + [Supplied(b, 1, 11)] + [Finalize(20, 0)]
  }

  lemma DepositsRun(a: Account, b: Account)
    requires a != b
    ensures Leads(a, Deposits(a, b), 20, BothActive(a, b))
  {
    hide Inv, Next, EmptyMarket, Deposited, Both, BothActive, Records, Plain, Run, Scheduled, Clock;
    Set(a);
    DepositStep(a);
    assert [] + [Supplied(a, 20, 11)] == [Supplied(a, 20, 11)];
    Extend(a, [], START, EmptyMarket(START, Records(a)), Supplied(a, 20, 11), Deposited(a));
    SecondDeposit(a, b);
    Extend(a, [Supplied(a, 20, 11)], 11, Deposited(a), Supplied(b, 1, 11), Both(a, b));
    FinalizeBoth(a, b);
    Extend(a, [Supplied(a, 20, 11)] + [Supplied(b, 1, 11)], 11, Both(a, b), Finalize(20, 0), BothActive(a, b));
  }

  // ---- Six withdrawals in flight ----

  /** `n` withdrawals of one unit each have been started by `a`, none yet by `b`. */
  ghost predicate Waiting(s: State, a: Account, b: Account, n: nat) {
    && Inv(s, Plain(a)) && |s.snaps| == 2 && s.snaps[1].end == 20 && s.snaps[1].active == 0 && n <= 5
    && a in s.supply.positions && b in s.supply.positions && s.supply.positions[b] == Fresh(1)
    && s.supply.positions[a].active == 20 - n && s.supply.active == s.balance == 21 - n
    && s.supply.positions[a].incoming == [] && s.supply.incoming == []
    && s.supply.positions[a].earned == Accumulator(0, 0, 2) && s.paid == 0 && s.borrow.borrowed == 0
    && |s.supply.pending| == n && forall k :: 0 <= k < n ==> s.supply.pending[k] == Withdrawal(a, 1, 0)
  }

  /** What is left of a deposit of `amount` becomes active. */
  lemma FreshAccrues(amount: nat, snaps: seq<Snapshot>, w: Weights)
    requires |snaps| == 2 && TimesOrdered(snaps) && snaps[1].active == 0 && w.total > 0
    ensures AccrueYield(Fresh(amount), snaps, w, U32_MAX)
            == SupplyPosition(Some(11), amount, [], 0, Accumulator(0, 0, 2))
  {
    DepositAccrues(Fresh(amount), amount, snaps, w);
  }

  lemma HarvestStep(a: Account, b: Account)
    requires a != b && Inv(BothActive(a, b), Plain(a))
    ensures var r := Next(BothActive(a, b), Plain(a), Harvested(a, U32_MAX));
            r.Some? && Waiting(r.value, a, b, 0)
  {
    hide SupplyInv, BorrowInv, StaticInv, Conserved, Funded, AccrueYield, AddUsed, AddCredited;
    var s, w := BothActive(a, b), Plain(a).weights;
    HarvestKeeps(s, Plain(a), a, U32_MAX);
    FreshAccrues(20, s.snaps, w);
    hide Inv;
  }

  /** One unit is sent out of an active deposit. */
  lemma SendOne(s: State, a: Account)
    requires a in s.supply.positions && s.supply.positions[a].active > 0 && s.supply.positions[a].incoming == []
    requires s.supply.positions[a].earned.total == 0 && s.paid == 0 && s.borrow.borrowed == 0
    requires s.supply.incoming == [] && s.supply.active > 0 && s.balance > 0
    ensures var r, p := Attempt(s, a, 1, 0), s.supply.positions[a];
            && r.Some? && r.value.snaps == s.snaps
            && r.value.supply.positions
               == s.supply.positions[a := p.(active := p.active - 1, outgoing := p.outgoing + 1)]
            && r.value.supply.active == s.supply.active - 1 && r.value.balance == s.balance - 1
            && r.value.supply.incoming == [] && r.value.paid == 0 && r.value.borrow == s.borrow
            && r.value.supply.pending == s.supply.pending + [Withdrawal(a, 1, 0)]
  {
    NoEntry();
    var p := s.supply.positions[a];
    assert Withdrawable(p, s.supply.active, 0, 0) == Some(Min(p.active, s.supply.active));
    assert PlanOf(p, 0, 1) == Plan(0, 0, 1);
    assert RemoveIncoming([], [], 0, 0) == Some(([], []));
    hide RemoveIncoming, PlanOf, Withdrawable, TotalIncoming;
    assert p.(earned := p.earned.(total := 0)) == p;
  }

  lemma WithdrawOne(s: State, a: Account, b: Account, n: nat)
    requires a != b && Waiting(s, a, b, n) && n < 5
    ensures var r := Next(s, Plain(a), WithdrawalStarted(a, 1, 0));
            r.Some? && Waiting(r.value, a, b, n + 1)
  {
    var c := Plain(a);
    hide SupplyInv, BorrowInv, StaticInv, Conserved, Funded, Touched, Attempt, WellFormed, Fresh;
    TouchedInv(s, c, a);
    TouchedTwice(s.supply, s.snaps, c.weights, a);
    SendOne(s, a);
    WithdrawStartKeeps(s, c, a, 1, 0);
    hide Inv;
  }

  function Starts(a: Account, b: Account, n: nat): (r: seq<Step>) {
    if n == 0 then Deposits(a, b) + [Harvested(a, U32_MAX)]
    else Starts(a, b, n - 1) + [WithdrawalStarted(a, 1, 0)]
  }

  lemma {:induction false} StartsRun(a: Account, b: Account, n: nat) returns (s: State)
    requires a != b && n <= 5
    ensures Leads(a, Starts(a, b, n), 20, s) && Waiting(s, a, b, n)
  {
    hide Inv, Next, EmptyMarket, Records, Deposits, Run, Plain, Waiting, BothActive, Scheduled, Clock;
    if n == 0 {
      DepositsRun(a, b);
      HarvestStep(a, b);
      s := Next(BothActive(a, b), Plain(a), Harvested(a, U32_MAX)).value;
      Extend(a, Deposits(a, b), 20, BothActive(a, b), Harvested(a, U32_MAX), s);
    } else {
      var t := StartsRun(a, b, n - 1);
      WithdrawOne(t, a, b, n - 1);
      s := Next(t, Plain(a), WithdrawalStarted(a, 1, 0)).value;
      Extend(a, Starts(a, b, n - 1), 20, t, WithdrawalStarted(a, 1, 0), s);
    }
  }

  // ---- Four failures in as many snapshots ----

  /** `n` of the withdrawals of `a` have failed, a snapshot apart; nothing has accrued
      since. That of `b` is still in flight. */
  ghost predicate Failed(s: State, a: Account, b: Account, n: nat) {
    && Inv(s, Plain(a)) && n <= 4 && |s.snaps| == 2 + n && s.snaps[n + 1].end == 20 + 10 * n
    && a in s.supply.positions && b in s.supply.positions && s.supply.positions[b].incoming == []
    && |s.supply.positions[a].incoming| == n && (n > 0 ==> s.supply.positions[a].incoming[n - 1].at == 2 + n)
    && |s.supply.pending| == 6 - n && s.supply.pending[5 - n] == Withdrawal(b, 1, 0)
    && forall k :: 0 <= k < 5 - n ==> s.supply.pending[k] == Withdrawal(a, 1, 0)
  }

  lemma TouchedFresh(s: State, a: Account, b: Account)
    requires a != b && Waiting(s, a, b, 5)
    ensures TimesOrdered(s.snaps) && WellFormed(s.supply.positions[b], |s.snaps|)
    ensures var t := Touched(s.supply, s.snaps, Plain(a).weights, b);
            && Inv(s.(supply := t), Plain(a)) && t.positions.Keys == s.supply.positions.Keys
            && t.positions[b] == SupplyPosition(Some(11), 1, [], 0, Accumulator(0, 0, 2))
            && t.positions[a] == s.supply.positions[a] && t.active == s.supply.active && t.incoming == []
            && t.pending == s.supply.pending
  {
    hide SupplyInv, BorrowInv, StaticInv, Conserved, Funded, AccrueYield, AddUsed, AddCredited, WellFormed;
    TouchedInv(s, Plain(a), b);
    FreshAccrues(1, s.snaps, Plain(a).weights);
    hide Inv, Fresh;
  }

  /** Together with the fifth of `a`, `b` withdraws as well. */
  lemma WithdrawOther(s: State, a: Account, b: Account)
    requires a != b && Waiting(s, a, b, 5)
    ensures var r := Next(s, Plain(a), WithdrawalStarted(b, 1, 0));
            r.Some? && Failed(r.value, a, b, 0)
  {
    hide SupplyInv, BorrowInv, StaticInv, Conserved, Funded, Touched, Attempt, WellFormed;
    var c := Plain(a);
    TouchedFresh(s, a, b);
    SendOne(s.(supply := Touched(s.supply, s.snaps, c.weights, b)), b);
    WithdrawStartKeeps(s, c, b, 1, 0);
    hide Inv;
  }

  /** The callback of one withdrawal of `a`, whose transfer failed. */
  function Failure(a: Account): (r: Step) {
    WithdrawalsEnded([Resolution(Withdrawal(a, 1, 0), false)])
  }

  lemma FailOne(s: State, a: Account, b: Account, n: nat)
    requires a != b && Failed(s, a, b, n) && n < 4
    ensures var r := WithdrawEnd(s, Plain(a), 0, false);
            && r.Some? && Inv(r.value, Plain(a)) && r.value.snaps == s.snaps && a in r.value.supply.positions
            && r.value.supply.positions[a].incoming == s.supply.positions[a].incoming + [Incoming(n + 3, 1)]
            && b in r.value.supply.positions && r.value.supply.positions[b] == s.supply.positions[b]
            && r.value.supply.pending == s.supply.pending[1..]
  {
    hide Inv, Settle, Full, HoldingsOf, ClaimOf;
    WithdrawEndKeeps(s, Plain(a), 0, false);
    FailedCallbackRestores(s, Plain(a), 0);
    assert !Full(s.supply.positions[a], |s.snaps|) by { FewEntries(s.supply.positions[a], |s.snaps|); }
    assert RemoveAt(s.supply.pending, 0) == s.supply.pending[1..];
    AddedEntry(s.supply, |s.snaps|, 0);
  }

  lemma FewEntries(p: SupplyPosition, count: nat)
    requires |p.incoming| < 4
    ensures !Full(p, count)
  {}

  /** A failed withdrawal comes back as an entry of its own. */
  lemma AddedEntry(s: SupplySide, count: nat, k: nat)
    requires k < |s.pending| && s.pending[k].account in s.positions && Settle(s, count, k, false).Some?
    requires var own := s.positions[s.pending[k].account].incoming;
             |own| < 4 && (own != [] ==> own[|own| - 1].at <= count)
    ensures var a, t := s.pending[k].account, Settle(s, count, k, false).value;
            && a in t.positions
            && t.positions[a].incoming == s.positions[a].incoming + [Incoming(count + 1, AmountOf(s.pending[k]))]
  {
    hide AddMarket, AmountOf, RemoveAt;
  }

  lemma FailureIs(s: State, a: Account, b: Account, n: nat)
    requires a != b && Failed(s, a, b, n) && n < 4
    ensures Plain(a).protocol in s.statics.records
    ensures Next(s, Plain(a), Failure(a)) == WithdrawEnd(s, Plain(a), 0, false)
  {
    hide Inv, WithdrawEnd, Next;
    ProtocolKnown(s, Plain(a));
    var batch := [Resolution(Withdrawal(a, 1, 0), false)];
    NextBatch(s, Plain(a), batch);
    assert batch[1..] == [];
    assert FindReceipt(s.supply.pending, Withdrawal(a, 1, 0)) == 0;
  }

  lemma FailAndFinalize(s: State, a: Account, b: Account, n: nat)
    requires a != b && Failed(s, a, b, n) && n < 4
    ensures var r := Next(s, Plain(a), Failure(a));
            && r.Some? && Inv(r.value, Plain(a))
            && var t := Next(r.value, Plain(a), Finalize(30 + 10 * n, 0));
               t.Some? && Failed(t.value, a, b, n + 1)
  {
    hide Inv, WithdrawEnd, Next, CurrentActive, Activated, Failure;
    FailOne(s, a, b, n);
    FailureIs(s, a, b, n);
    var t := WithdrawEnd(s, Plain(a), 0, false).value;
    NextTick(t, Plain(a), 30 + 10 * n, 0);
    TickKeeps(t, Plain(a), 30 + 10 * n, 0);
    ActivatedSame(t.supply, |t.snaps|);
  }

  lemma ActivatedSame(s: SupplySide, count: nat)
    ensures Activated(s, count).positions == s.positions && Activated(s, count).pending == s.pending
  {}

  function Failures(a: Account, b: Account, n: nat): (r: seq<Step>) {
    if n == 0 then Starts(a, b, 5) + [WithdrawalStarted(b, 1, 0)]
    else Failures(a, b, n - 1) + [Failure(a)] + [Finalize(20 + 10 * n, 0)]
  }

  lemma {:induction false} FailuresRun(a: Account, b: Account, n: nat) returns (s: State)
    requires a != b && n <= 4
    ensures Leads(a, Failures(a, b, n), 20 + 10 * n, s) && Failed(s, a, b, n)
  {
    hide Inv, Next, EmptyMarket, Records, Run, Plain, Starts, Scheduled, Clock, Failed, Waiting;
    if n == 0 {
      var t := StartsRun(a, b, 5);
      WithdrawOther(t, a, b);
      s := Next(t, Plain(a), WithdrawalStarted(b, 1, 0)).value;
      Extend(a, Starts(a, b, 5), 20, t, WithdrawalStarted(b, 1, 0), s);
    } else {
      var t := FailuresRun(a, b, n - 1);
      var clock, steps := 10 + 10 * n, Failures(a, b, n - 1);
      FailAndFinalize(t, a, b, n - 1);
      var u := Next(t, Plain(a), Failure(a)).value;
      Extend(a, steps, clock, t, Failure(a), u);
      s := Next(u, Plain(a), Finalize(clock + 10, 0)).value;
      Extend(a, steps + [Failure(a)], clock, u, Finalize(clock + 10, 0), s);
    }
  }

  // ---- The fifth failure ----

  /** The callback of the execution that sent the fifth withdrawal of `a` and that of `b`. */
  function Callback(a: Account, b: Account, success: bool): (r: seq<Resolution>) {
    [Resolution(Withdrawal(a, 1, 0), false), Resolution(Withdrawal(b, 1, 0), success)]
  }

  lemma CallbackPanics(s: State, a: Account, b: Account, success: bool)
    requires a != b && Failed(s, a, b, 4)
    ensures Next(s, Plain(a), WithdrawalsEnded(Callback(a, b, success))).None?
    ensures Next(s, Plain(a), WithdrawalsEnded([Resolution(Withdrawal(b, 1, 0), success)])).Some?
  {
    hide Inv, Next, WithdrawalsEnd;
    var batch, alone := Callback(a, b, success), [Resolution(Withdrawal(b, 1, 0), success)];
    assert s.supply.pending == [Withdrawal(a, 1, 0), Withdrawal(b, 1, 0)];
    assert NoRoom(s, batch[0]) && !NoRoom(s, alone[0]);
    BatchPanics(s, Plain(a), batch);
    BatchPanics(s, Plain(a), alone);
    NextBatch(s, Plain(a), batch);
    NextBatch(s, Plain(a), alone);
  }

  /** The fifth transfer fails as well. The callback panics, and the unit of `a` is neither
      paid nor back. Neither is that of `b`, who has room for it, and it stays in flight
      even if it was paid; a callback of its own would have settled it. */
  lemma FifthIsStranded(a: Account, b: Account)
    requires a != b
    ensures Inv(EmptyMarket(START, Records(a)), Plain(a)) && Scheduled(DURATION, START, Failures(a, b, 4))
    ensures var s := Run(EmptyMarket(START, Records(a)), Plain(a), Failures(a, b, 4));
            && s.supply.pending == [Withdrawal(a, 1, 0), Withdrawal(b, 1, 0)]
            && forall success ::
                 && Next(s, Plain(a), WithdrawalsEnded(Callback(a, b, success))).None?
                 && Next(s, Plain(a), WithdrawalsEnded([Resolution(Withdrawal(b, 1, 0), success)])).Some?
  {
    hide Inv, Next, EmptyMarket, Records, Run, Failures, Scheduled, Clock, Plain, Callback;
    var s := FailuresRun(a, b, 4);
    forall success
      ensures Next(s, Plain(a), WithdrawalsEnded(Callback(a, b, success))).None?
      ensures Next(s, Plain(a), WithdrawalsEnded([Resolution(Withdrawal(b, 1, 0), success)])).Some?
    {
      CallbackPanics(s, a, b, success);
    }
  }
}
