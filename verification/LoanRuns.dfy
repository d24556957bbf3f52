/**
 Runs that end in what loans and collateral are not meant to end in: a principal below
 the minimum, interest owed on a loan that never arrived, and a callback that panics.
 */
module LoanRuns {
  import opened Arith
  import opened Sums
  import opened Accrual
  import opened SupplySteps
  import opened BorrowLedger
  import opened BorrowSteps
  import opened Market
  import opened MarketRuns
  import opened Loans
  import opened Schedule
  import opened ExampleMarket

  // ---- A principal below the minimum ----

  function Undercutting(a: Account): (r: seq<Step>) {
    Secure(a) + [BorrowStarted(a, 10, 0, true)] + [BorrowEnded(0, true, 21)] + [BorrowStarted(a, 1, 0, true)]
    + [Repaid(a, 10, true)] + [BorrowEnded(0, true, 22)]
  }

  lemma WholePrincipal(p: BorrowPosition)
    requires p.principal == 10 && p.fees == 0 && p.interest.total == 0
    ensures Split(p, 10, 10) == Some(Reduction(0, 0, 10, 0))
  {}

  lemma UndercuttingRun(a: Account)
    ensures var b := Arrived(Repaying(Borrowing(a, Arrived(Borrowing(a, Start(), 10, 0), 21), 1, 0),
                                      Reduction(0, 0, 10, 0)), 22);
            Leads(a, Undercutting(a), 22, Standing(a, b)) && b.position.principal == 1
  {
    hide Leads, Standing, Secure, Split;
    SecuredRun(a);
    assert Secured(a) == Standing(a, Start());
    var steps, b0 := Secure(a), Start();
    BorrowRun(a, steps, 20, b0, 10, 0);
    var b1 := Borrowing(a, b0, 10, 0);
    steps := steps + [BorrowStarted(a, 10, 0, true)];
    ArriveRun(a, steps, 20, b1, 21);
    var b2 := Arrived(b1, 21);
    steps := steps + [BorrowEnded(0, true, 21)];
    BorrowRun(a, steps, 21, b2, 1, 0);
    var b3 := Borrowing(a, b2, 1, 0);
    steps := steps + [BorrowStarted(a, 1, 0, true)];
    WholePrincipal(b3.position);
    RepayRun(a, steps, 21, b3, Reduction(0, 0, 10, 0));
    ArriveRun(a, steps + [Repaid(a, 10, true)], 21, Repaying(b3, Reduction(0, 0, 10, 0)), 22);
  }

  /** No transfer fails: a loan of ten, one more of one, repayment of the ten while the
      second is in flight, and its arrival leaves a principal of one. */
  lemma PrincipalBelowMinimum(a: Account)
    ensures Inv(EmptyMarket(START, Records(a)), Plain(a)) && Scheduled(DURATION, START, Undercutting(a))
    ensures var s := Run(EmptyMarket(START, Records(a)), Plain(a), Undercutting(a));
            && a in s.borrow.positions && s.borrow.positions[a].principal == 1
            && !Allowed(s.borrow.positions[a].principal, Plain(a).minimum)
  {
    hide Inv, Next, EmptyMarket, Records, Run, Scheduled, Clock, Undercutting;
    UndercuttingRun(a);
  }

  // ---- Interest on a loan that never arrived ----

  const LONG: nat := 100_000_000_000

  function Failing(a: Account): (r: seq<Step>) {
    Secure(a) + [BorrowStarted(a, 15, 0, true)] + [Finalize(LONG, TWO_128)] + [BorrowEnded(0, false, LONG)]
  }

  lemma InterestInFlight(snaps: seq<Snapshot>)
    requires |snaps| == 3 && TimesOrdered(snaps) && snaps[1].end == 20
    requires snaps[2].end == LONG && snaps[2].rate == TWO_128
    ensures InterestSum(15, snaps, 2, 3) >= TWO_128
  {
    assert Duration(snaps, 2) == LONG - 20;
    assert Charge(snaps, 2) == TWO_128 * (LONG - 20) * YEAR_PER_MS;
    assert Interest(15, Charge(snaps, 2)) == 15 * (LONG - 20) * YEAR_PER_MS;
  }

  lemma FinalizeInFlight(a: Account, s: State)
    requires s == Standing(a, Borrowing(a, Start(), 15, 0))
    ensures var t := Tick(s, LONG, TWO_128);
            && t.Some? && t.value.borrow.lending == [Receipt(a, 15)]
            && t.value.borrow.positions == map[a := BorrowPosition(None, 1, 0, Accumulator(0, 0, 2), 0, 15, 0)]
            && |t.value.snaps| == 3 && t.value.snaps[1].end == 20
            && t.value.snaps[2].end == LONG && t.value.snaps[2].rate == TWO_128
  {
    hide CurrentActive, Activated;
  }

  lemma FailInFlight(a: Account, t: State, c: Config)
    requires Inv(t, c) && t.borrow.lending == [Receipt(a, 15)]
    requires t.borrow.positions == map[a := BorrowPosition(None, 1, 0, Accumulator(0, 0, 2), 0, 15, 0)]
    requires |t.snaps| == 3 && t.snaps[1].end == 20 && t.snaps[2].end == LONG && t.snaps[2].rate == TWO_128
    ensures var u := BorrowEnd(t, c, 0, false, LONG);
            && u.Some? && a in u.value.borrow.positions
            && var q := u.value.borrow.positions[a];
               q.principal == 0 && q.inFlight == 0 && q.interest.total > 0
  {
    hide Inv, BorrowEnd, InterestSum;
    FailedLoanLeavesFeesAndInterest(t, c, 0, LONG);
    var u := BorrowEnd(t, c, 0, false, LONG).value;
    assert TimesOrdered(t.snaps) by { GuardFields(t, c, a); }
    InterestInFlight(t.snaps);
    assert Inv(u, c) by { BorrowEndKeeps(t, c, 0, false, LONG); }
    FractionBounded(u, c, a);
  }

  /** A snapshot is finalized while a loan of fifteen is in flight, and then the transfer
      fails: nothing was lent and nothing is in flight, but interest is owed. */
  lemma FailedLoanOwesInterest(a: Account)
    ensures Inv(EmptyMarket(START, Records(a)), Plain(a)) && Scheduled(DURATION, START, Failing(a))
    ensures var s := Run(EmptyMarket(START, Records(a)), Plain(a), Failing(a));
            && a in s.borrow.positions && s.borrow.positions[a].principal == 0
            && s.borrow.positions[a].inFlight == 0 && s.borrow.positions[a].interest.total > 0
  {
    hide Inv, Next, EmptyMarket, Records, Secure, Run, Scheduled, Clock, Plain, Standing, Tick, BorrowEnd;
    var c := Plain(a);
    SecuredRun(a);
    var steps, b0 := Secure(a), Start();
    BorrowStep(a, b0, 15, 0);
    var s := Standing(a, Borrowing(a, b0, 15, 0));
    Extend(a, steps, 20, Standing(a, b0), BorrowStarted(a, 15, 0, true), s);
    steps := steps + [BorrowStarted(a, 15, 0, true)];
    NextTick(s, c, LONG, TWO_128);
    FinalizeInFlight(a, s);
    var t := Tick(s, LONG, TWO_128).value;
    Extend(a, steps, 20, s, Finalize(LONG, TWO_128), t);
    steps := steps + [Finalize(LONG, TWO_128)];
    FailInFlight(a, t, c);
    NextBorrowEnd(t, c, BorrowEnded(0, false, LONG));
    Extend(a, steps, LONG, t, BorrowEnded(0, false, LONG), BorrowEnd(t, c, 0, false, LONG).value);
  }

  lemma FractionBounded(s: State, c: Config, a: Account)
    requires Inv(s, c) && a in s.borrow.positions
    ensures s.borrow.positions[a].interest.fraction < TWO_128
  {
    assert Sound(s.borrow.positions[a], |s.snaps|) by {
      assert BorrowInv(s.borrow, s.snaps);
    }
  }

  // ---- A callback that panics ----

  function Emptying(a: Account): (r: seq<Step>) {
    Secure(a) + [CollateralStarted(a, 0, true)] + [CollateralStarted(a, 1, true)] + [CollateralEnded(1, true)]
  }

  lemma SendStep(a: Account, b: Books, amount: nat)
    requires Inv(Standing(a, b), Plain(a)) && b.position.interest == Accumulator(0, 0, 2)
    requires amount <= b.position.collateral
    ensures Next(Standing(a, b), Plain(a), CollateralStarted(a, amount, true))
            == Some(Standing(a, Sending(a, b, amount)))
  {
    hide Inv, Guard;
    Untouched(a, b);
    var q := Sending(a, b, amount).position;
    assert map[a := b.position][a := b.position.(collateral := q.collateral)][a := q] == map[a := q];
  }

  function Sending(a: Account, b: Books, amount: nat): (r: Books)
    requires amount <= b.position.collateral
  {
    b.(position := b.position.(collateral := b.position.collateral - amount,
                               collateralInFlight := b.position.collateralInFlight + amount),
       returning := b.returning + [Receipt(a, amount)])
  }

  lemma EmptiedStep(a: Account, b: Books)
    requires Inv(Standing(a, b), Plain(a)) && b.position.interest == Accumulator(0, 0, 2)
    requires b.returning == [Receipt(a, 0), Receipt(a, 1)] && b.position.collateralInFlight == 1
    requires b.position.collateral == 0 && Liability(b.position) == 0
    ensures var r := Next(Standing(a, b), Plain(a), CollateralEnded(1, true));
            r.Some? && a !in r.value.borrow.positions && r.value.borrow.returning == [Receipt(a, 0)]
  {
    hide Inv, Guard;
    Untouched(a, b);
    assert RemoveAt([Receipt(a, 0), Receipt(a, 1)], 1) == [Receipt(a, 0)];
  }

  lemma NothingToSettle(s: State, c: Config, a: Account, success: bool)
    requires Inv(s, c) && a !in s.borrow.positions && s.borrow.returning == [Receipt(a, 0)]
    ensures Next(s, c, CollateralEnded(0, success)).None?
  {
    hide Inv, CollateralEnd;
    CollateralCallbackPanics(s, c, 0, success);
    NextCollateralEnd(s, c, 0, success);
  }

  /** After a withdrawal of no collateral and one of all of it, of which the second is
      settled first, the callback of the first finds no position. */
  lemma CollateralCallbackFindsNothing(a: Account)
    ensures Inv(EmptyMarket(START, Records(a)), Plain(a)) && Scheduled(DURATION, START, Emptying(a))
    ensures var s := Run(EmptyMarket(START, Records(a)), Plain(a), Emptying(a));
            && s.borrow.returning == [Receipt(a, 0)]
            && forall success :: Next(s, Plain(a), CollateralEnded(0, success)).None?
  {
    hide Inv, Next, EmptyMarket, Records, Secure, Run, Scheduled, Clock, Plain, Standing;
    var c := Plain(a);
    SecuredRun(a);
    var steps, b0 := Secure(a), Start();
    SendStep(a, b0, 0);
    var b1 := Sending(a, b0, 0);
    Extend(a, steps, 20, Standing(a, b0), CollateralStarted(a, 0, true), Standing(a, b1));
    steps := steps + [CollateralStarted(a, 0, true)];
    SendStep(a, b1, 1);
    var b2 := Sending(a, b1, 1);
    Extend(a, steps, 20, Standing(a, b1), CollateralStarted(a, 1, true), Standing(a, b2));
    steps := steps + [CollateralStarted(a, 1, true)];
    assert b2.returning == [Receipt(a, 0), Receipt(a, 1)];
    EmptiedStep(a, b2);
    var s := Next(Standing(a, b2), c, CollateralEnded(1, true)).value;
    Extend(a, steps, 20, Standing(a, b2), CollateralEnded(1, true), s);
    forall success ensures Next(s, c, CollateralEnded(0, success)).None? {
      NothingToSettle(s, c, a, success);
    }
  }
}
