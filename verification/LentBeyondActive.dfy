/**
 A run of the market after which more is lent than is actively deposited, although
 the comment on the market's total of loans says this cannot be: the yield paid by
 borrowers counts towards what suppliers may withdraw. Continued, the run comes to a
 state in which loans exceed active deposits and yield together, and withdrawals panic.
 */
module LentBeyondActive {
  import opened Arith
  import opened Sums
  import opened Accrual
  import opened SupplyLedger
  import opened SupplySteps
  import opened BorrowLedger
  import opened BorrowSteps
  import opened StaticLedger
  import opened Market
  import opened MarketRuns
  import opened Schedule
  import opened ExampleMarket
  import opened Withdrawals

  // ---- A loan, its fees, and a withdrawal ----

  function Opened(a: Account): (r: seq<Step>) {
    Secure(a) + [BorrowStarted(a, 15, 10, true)] + [BorrowEnded(0, true, 21)] + [Repaid(a, 10, true)]
  }

  function FeesRepaid(a: Account): (b: Books) {
    Repaying(Arrived(Borrowing(a, Start(), 15, 10), 21), Reduction(10, 0, 0, 0))
  }

  lemma FeesFigures(a: Account)
    ensures var b := FeesRepaid(a);
            b.borrowed == 15 && b.inFlight == 0 && b.distribution == 10 && b.balance == 15 && b.paid == 10
  {}

  /** A payment of the fees alone leaves everything else. */
  lemma FeesOnly(p: BorrowPosition, paid: nat)
    requires p.fees == paid && p.principal >= 10 && p.interest.total == 0
    ensures Split(p, paid, 10) == Some(Reduction(paid, 0, 0, 0))
  {}

  lemma OpenedRun(a: Account)
    ensures Leads(a, Opened(a), 21, Standing(a, FeesRepaid(a)))
  {
    hide Leads, Standing, Secure, Split;
    SecuredRun(a);
    assert Secured(a) == Standing(a, Start());
    var steps, b := Secure(a), Start();
    BorrowRun(a, steps, 20, b, 15, 10);
    var b1 := Borrowing(a, b, 15, 10);
    steps := steps + [BorrowStarted(a, 15, 10, true)];
    ArriveRun(a, steps, 20, b1, 21);
    var b2 := Arrived(b1, 21);
    FeesOnly(b2.position, 10);
    RepayRun(a, steps + [BorrowEnded(0, true, 21)], 21, b2, Reduction(10, 0, 0, 0));
  }

  /** What the rest of the run needs to know of a state. */
  ghost predicate Figures(s: State, a: Account, count: nat, p: SupplyPosition, incoming: seq<Incoming>,
                          balance: nat, paid: nat, distribution: nat) {
    && |s.snaps| == count && a in s.supply.positions && s.supply.positions[a].active == p.active == s.supply.active
    && s.supply.positions[a].incoming == p.incoming && s.supply.positions[a].earned == p.earned
    && s.supply.incoming == incoming && s.balance == balance && s.paid == paid
    && s.borrow.borrowed == 15 && s.borrow.inFlight == 0 && s.distribution == distribution
  }

  lemma TouchedFigures(a: Account)
    requires Inv(Standing(a, FeesRepaid(a)), Plain(a))
    ensures var s := Standing(a, FeesRepaid(a));
            && TimesOrdered(s.snaps) && WellFormed(s.supply.positions[a], 2)
            && Figures(s.(supply := Touched(s.supply, s.snaps, Plain(a).weights, a)), a, 2,
                       SupplyPosition(Some(11), 20, [], 0, Accumulator(0, 0, 2)), [], 15, 10, 10)
  {
    hide SupplyInv, BorrowInv, StaticInv, Conserved, Funded, AccrueYield, AddUsed, AddCredited, FeesRepaid;
    var s, w := Standing(a, FeesRepaid(a)), Plain(a).weights;
    FeesFigures(a);
    TouchedKeeps(s.supply, s.snaps, w, a);
    DepositAccrues(s.supply.positions[a], 20, s.snaps, w);
    hide Inv, WellFormed;
  }

  lemma PayFigures(s: State, a: Account)
    requires Figures(s, a, 2, SupplyPosition(Some(11), 20, [], 0, Accumulator(0, 0, 2)), [], 15, 10, 10)
    ensures var r := Attempt(s, a, 15, 0);
            && r.Some? && r.value.snaps == s.snaps
            && Figures(r.value, a, 2, SupplyPosition(Some(11), 5, [], 0, Accumulator(0, 0, 2)), [], 0, 10, 10)
  {
    NoEntry();
    assert Withdrawable(s.supply.positions[a], 20, 10, 15) == Some(15);
    assert PlanOf(s.supply.positions[a], 10, 15) == Plan(0, 0, 15);
    assert RemoveIncoming([], [], 0, 0) == Some(([], []));
    hide RemoveIncoming, PlanOf, Withdrawable, TotalIncoming;
  }

  /** The state after the withdrawal. */
  ghost function Withdrawn(a: Account): (s: State)
    requires Inv(Standing(a, FeesRepaid(a)), Plain(a))
    ensures Inv(s, Plain(a))
  {
    After(Standing(a, FeesRepaid(a)), Plain(a), WithdrawalStarted(a, 15, 0))
  }

  lemma WithdrawStep(a: Account)
    requires Inv(Standing(a, FeesRepaid(a)), Plain(a))
    ensures Next(Standing(a, FeesRepaid(a)), Plain(a), WithdrawalStarted(a, 15, 0)) == Some(Withdrawn(a))
    ensures Withdrawn(a).snaps == Finalized(a).snaps
    ensures Figures(Withdrawn(a), a, 2, SupplyPosition(Some(11), 5, [], 0, Accumulator(0, 0, 2)), [], 0, 10, 10)
  {
    hide Inv, Touched, Attempt, WellFormed, FeesRepaid;
    var s := Standing(a, FeesRepaid(a));
    TouchedFigures(a);
    PayFigures(s.(supply := Touched(s.supply, s.snaps, Plain(a).weights, a)), a);
    hide Figures;
  }

  function Fewer(a: Account): (r: seq<Step>) {
    Opened(a) + [WithdrawalStarted(a, 15, 0)]
  }

  lemma WithdrawnRun(a: Account)
    ensures Inv(Standing(a, FeesRepaid(a)), Plain(a)) && Leads(a, Fewer(a), 21, Withdrawn(a))
    ensures Withdrawn(a).snaps == Finalized(a).snaps
    ensures Figures(Withdrawn(a), a, 2, SupplyPosition(Some(11), 5, [], 0, Accumulator(0, 0, 2)), [], 0, 10, 10)
  {
    hide Inv, Next, EmptyMarket, Standing, Records, Plain, Opened, Run, FeesRepaid, Withdrawn, Figures, Finalized;
    hide Scheduled, Clock;
    OpenedRun(a);
    WithdrawStep(a);
    Extend(a, Opened(a), 21, Standing(a, FeesRepaid(a)), WithdrawalStarted(a, 15, 0), Withdrawn(a));
  }

  /** More is lent, fifteen, than is actively deposited, five. */
  lemma MoreLentThanActive(a: Account)
    ensures Inv(EmptyMarket(START, Records(a)), Plain(a)) && Scheduled(DURATION, START, Fewer(a))
    ensures var s := Run(EmptyMarket(START, Records(a)), Plain(a), Fewer(a));
            s.supply.active < s.borrow.borrowed + s.borrow.inFlight
  {
    hide Inv, EmptyMarket, Run, FeesRepaid, Withdrawn, Opened, Scheduled, Clock;
    WithdrawnRun(a);
  }

  // ---- A withdrawal of yield ----

  lemma FinalizeAgain(s: State, a: Account)
    requires Figures(s, a, 2, SupplyPosition(Some(11), 5, [], 0, Accumulator(0, 0, 2)), [], 0, 10, 10)
    requires s.snaps == Finalized(a).snaps
    ensures var r := Tick(s, 30, 0);
            && r.Some? && r.value.snaps == Finalized(a).snaps + [Snapshot(30, 5, 15, 10, 0)]
            && Figures(r.value, a, 3, SupplyPosition(Some(11), 5, [], 0, Accumulator(0, 0, 2)), [], 0, 10, 0)
  {
    assert FindAt([], 2) == 0 && FindAt([], 3) == 0;
  }

  /** The supplier earns all the fees of the snapshot. */
  lemma EarnsTheFees(p: SupplyPosition, snaps: seq<Snapshot>, w: Weights)
    requires p.active == 5 && p.incoming == [] && p.earned == Accumulator(0, 0, 2) && w == Weights(1, 1)
    requires |snaps| == 3 && TimesOrdered(snaps) && snaps[2] == Snapshot(30, 5, 15, 10, 0)
    ensures AccrueYield(p, snaps, w, U32_MAX) == p.(earned := Accumulator(10, 0, 3))
  {
    assert Reach(2, U32_MAX, 3) == 3;
    assert Charge(snaps, 2) == 0;
    assert Yield(snaps, 2) == 10 * TWO_128;
    assert Share(10 * TWO_128, 5, 5, w) == 10 * TWO_128;
    assert YieldSum(5, [], snaps, w, 2, 3) == 10 * TWO_128;
  }

  lemma DepositAgain(s: State, a: Account)
    requires Inv(s, Plain(a)) && s.snaps == Finalized(a).snaps + [Snapshot(30, 5, 15, 10, 0)]
    requires Figures(s, a, 3, SupplyPosition(Some(11), 5, [], 0, Accumulator(0, 0, 2)), [], 0, 10, 0)
    ensures var r := Supply(s, Plain(a), a, 10, 31);
            && r.Some?
            && Figures(r.value, a, 3, SupplyPosition(Some(11), 5, [Incoming(4, 10)], 0, Accumulator(10, 0, 3)),
                       [Incoming(4, 10)], 10, 10, 0)
  {
    hide SupplyInv, BorrowInv, StaticInv, Conserved, Funded, AccrueYield, AddUsed, AddCredited;
    var w := Plain(a).weights;
    TouchedKeeps(s.supply, s.snaps, w, a);
    EarnsTheFees(s.supply.positions[a], s.snaps, w);
    OneEntry(Incoming(4, 10));
    var none: seq<Incoming> := [];
    assert none + [Incoming(4, 10)] == [Incoming(4, 10)];
    hide Inv, WellFormed;
  }

  lemma PayYield(s: State, a: Account)
    requires Figures(s, a, 3, SupplyPosition(Some(11), 5, [Incoming(4, 10)], 0, Accumulator(10, 0, 3)),
                     [Incoming(4, 10)], 10, 10, 0)
    ensures var r := Attempt(s, a, 5, 0);
            && r.Some? && r.value.supply.active == 5 && r.value.paid == 5 && r.value.borrow.borrowed == 15
            && a in r.value.supply.positions && r.value.supply.positions[a].active == 5
            && r.value.supply.positions[a].earned.next == 3 && r.value.snaps == s.snaps
  {
    OneEntry(Incoming(4, 10));
    OneEach(4, 10, 0, 10);
    assert Withdrawable(s.supply.positions[a], 5, 10, 15) == Some(10);
    assert PlanOf(s.supply.positions[a], 10, 5) == Plan(5, 0, 0);
    hide RemoveIncoming, PlanOf, Withdrawable, TotalIncoming;
  }

  lemma YieldStep(s: State, a: Account)
    requires Inv(s, Plain(a))
    requires Figures(s, a, 3, SupplyPosition(Some(11), 5, [Incoming(4, 10)], 0, Accumulator(10, 0, 3)),
                     [Incoming(4, 10)], 10, 10, 0)
    ensures var r := WithdrawStart(s, Plain(a), a, 5, 0);
            && r.Some? && r.value.supply.active == 5 && r.value.paid == 5 && r.value.borrow.borrowed == 15
            && a in r.value.supply.positions && r.value.supply.positions[a].active == 5
            && r.value.supply.positions[a].earned.next == 3 && |r.value.snaps| == 3
  {
    hide SupplyInv, BorrowInv, StaticInv, Conserved, Funded, Touched, Attempt, WellFormed;
    TouchedInv(s, Plain(a), a);
    TouchedTwice(s.supply, s.snaps, Plain(a).weights, a);
    PayYield(s, a);
  }

  /** Nobody with an active deposit is paid in such a state. */
  lemma NobodyIsPaid(s: State, c: Config, a: Account, requested: nat, fee: nat)
    requires Inv(s, c) && s.supply.active + s.paid < s.borrow.borrowed
    requires a in s.supply.positions && s.supply.positions[a].active > 0
    requires s.supply.positions[a].earned.next == |s.snaps|
    ensures Next(s, c, WithdrawalStarted(a, requested, fee)).None?
  {
    hide SupplyInv, BorrowInv, StaticInv, Conserved, Funded, Touched, WithdrawStart, WellFormed, TotalIncoming;
    WithdrawalPanics(s, c, a, requested, fee);
    TouchedTwice(s.supply, s.snaps, c.weights, a);
  }

  function More(a: Account): (r: seq<Step>) {
    Fewer(a) + [Finalize(30, 0)] + [Supplied(a, 10, 31)] + [WithdrawalStarted(a, 5, 0)]
  }

  /** More is lent, fifteen, than active deposits, five, and yield, five; and from then
      on the supplier's withdrawals panic. */
  lemma MoreLentThanPayable(a: Account)
    ensures Inv(EmptyMarket(START, Records(a)), Plain(a)) && Scheduled(DURATION, START, More(a))
    ensures var s := Run(EmptyMarket(START, Records(a)), Plain(a), More(a));
            && s.supply.active + s.paid < s.borrow.borrowed
            && forall requested, fee :: Next(s, Plain(a), WithdrawalStarted(a, requested, fee)).None?
  {
    hide Inv, Next, EmptyMarket, Standing, Records, Fewer, Run, FeesRepaid, Withdrawn, Figures, Finalized, Plain;
    hide Scheduled, Clock;
    WithdrawnRun(a);
    var c, s := Plain(a), Withdrawn(a);
    FinalizeAgain(s, a);
    var t := Tick(s, 30, 0).value;
    NextTick(s, c, 30, 0);
    Extend(a, Fewer(a), 21, s, Finalize(30, 0), t);
    DepositAgain(t, a);
    var u := Supply(t, c, a, 10, 31).value;
    NextSupply(t, c, a, 10, 31);
    var steps := Fewer(a) + [Finalize(30, 0)];
    Extend(a, steps, 30, t, Supplied(a, 10, 31), u);
    YieldStep(u, a);
    var v := WithdrawStart(u, c, a, 5, 0).value;
    NextWithdrawStart(u, c, WithdrawalStarted(a, 5, 0));
    steps := steps + [Supplied(a, 10, 31)];
    Extend(a, steps, 31, u, WithdrawalStarted(a, 5, 0), v);
    forall requested, fee ensures Next(v, c, WithdrawalStarted(a, requested, fee)).None? {
      NobodyIsPaid(v, c, a, requested, fee);
    }
  }
}
