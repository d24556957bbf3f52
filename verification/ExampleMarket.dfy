/**
 The opening moves that the example runs share: a deposit that becomes active, and
 collateral.
 */
module ExampleMarket {
  import opened Arith
  import opened Sums
  import opened Accrual
  import opened SupplyLedger
  import opened SupplySteps
  import opened BorrowLedger
  import opened BorrowSteps
  import opened StaticLedger
  import opened Market
  import opened MarketRuns
  import opened Schedule

  /** The market is set up at `START`, with snapshots `DURATION` apart. */
  const START: nat := 10
  const DURATION: nat := 10

  /** One account in every role; all deposits may be lent, in loans of ten or more. */
  function Plain(a: Account): (c: Config) {
    Config(Weights(1, 1), a, 10, TWO_128, Range(1, None))
  }

  function Records(a: Account): (r: map<Account, StaticRecord>) {
    map[a := StaticRecord(None, Accumulator(0, 0, 1))]
  }

  lemma PlainInv(a: Account)
    ensures Inv(EmptyMarket(START, Records(a)), Plain(a))
  {
    SumZero(Records(a), Weight());
    EmptyMarketInv(START, Records(a), Plain(a));
  }

  function Deposited(a: Account): (s: State) {
    EmptyMarket(START, Records(a)).(
      supply := SupplySide(map[a := SupplyPosition(Some(11), 0, [Incoming(2, 20)], 0, Accumulator(0, 0, 1))],
                           0, [Incoming(2, 20)], [], [0], [0], 0, 0),
      balance := 20)
  }

  function Finalized(a: Account): (s: State) {
    Deposited(a).(
      supply := Deposited(a).supply.(active := 20, incoming := [], used := [0, 0], credited := [0, 0]),
      borrow := BorrowSide(map[], 0, 0, 0, [], [], [0, 0], [0, 0], [0, 0], 0, 0, 0),
      statics := StaticSide(Records(a), [], [0, 0], [0, 0], 0, 0),
      snaps := [Snapshot(START, 0, 0, 0, 0), Snapshot(20, 0, 0, 0, 0)])
  }

  /** The borrower's position and the figures that go with it, before another snapshot. */
  datatype Books = Books(position: BorrowPosition, borrowed: nat, inFlight: nat, lending: seq<Receipt>,
                         returning: seq<Receipt>, fees: nat, distribution: nat, balance: nat, paid: nat, feesPaid: nat)

  function Debt(a: Account, b: Books): (r: BorrowSide) {
    BorrowSide(map[a := b.position], b.borrowed, b.inFlight, b.position.collateral, b.lending, b.returning,
               [0, 0], [0, 0], [0, 0], b.fees, 0, 0)
  }

  function Standing(a: Account, b: Books): (s: State) {
    Finalized(a).(borrow := Debt(a, b), distribution := b.distribution, balance := b.balance, paid := b.paid,
                  feesPaid := b.feesPaid)
  }

  function Start(): (b: Books) {
    Books(BorrowPosition(None, 1, 0, Accumulator(0, 0, 2), 0, 0, 0), 0, 0, [], [], 0, 0, 20, 0, 0)
  }

  function Secured(a: Account): (s: State) {
    Standing(a, Start())
  }

  lemma DepositStep(a: Account)
    requires Inv(EmptyMarket(START, Records(a)), Plain(a))
    ensures Next(EmptyMarket(START, Records(a)), Plain(a), Supplied(a, 20, 11)) == Some(Deposited(a))
  {
    hide Inv;
    OneEntry(Incoming(2, 20));
    var none: seq<Incoming> := [];
    assert none + [Incoming(2, 20)] == [Incoming(2, 20)];
    var s := EmptyMarket(START, Records(a));
    assert Touched(s.supply, s.snaps, Plain(a).weights, a) == s.supply;
    assert Deposit(s.supply, 1, a, 20, 11) == Some(Deposited(a).supply) by {
      var p := NewPosition(1).(started := Some(11));
      assert map[][a := p][a := p.(incoming := [Incoming(2, 20)])] == Deposited(a).supply.positions;
    }
  }

  lemma FinalizeStep(a: Account)
    requires Inv(Deposited(a), Plain(a))
    ensures Next(Deposited(a), Plain(a), Finalize(20, 0)) == Some(Finalized(a))
  {
    hide Inv;
    OneEntry(Incoming(2, 20));
    assert RemoveAt([Incoming(2, 20)], 0) == [];
    assert FindAt([Incoming(2, 20)], 1) == 1;
    assert [0] + [0] == [0, 0];
    var snap := Snapshot(START, 0, 0, 0, 0);
    assert [snap] + [Snapshot(20, 0, 0, 0, 0)] == [snap, Snapshot(20, 0, 0, 0, 0)];
  }

  lemma CollateralStep(a: Account)
    requires Inv(Finalized(a), Plain(a))
    ensures Next(Finalized(a), Plain(a), Collateralized(a, 1, true)) == Some(Secured(a))
  {
    hide Inv;
    var s, p := Finalized(a), NewBorrow(2);
    assert map[][a := p][a := p.(collateral := 1)] == Secured(a).borrow.positions;
  }

  /** A position charged up to the last snapshot is left alone. */
  lemma AlreadyCharged(s: State, c: Config, a: Account, p: BorrowPosition)
    requires Inv(s, c) && |s.snaps| == 2 && s.borrow.positions == map[a := p]
    requires p.interest == Accumulator(0, 0, 2)
    requires s.borrow.used == [0, 0] && s.borrow.charged == [0, 0] && s.borrow.charges == [0, 0]
    ensures Guard(s, c, a) == Some(s.borrow)
  {
    assert Reach(2, U32_MAX, 2) == 2;
    ChargedKeeps(s.borrow, s.snaps, a);
    hide Inv;
    assert AccrueInterest(p.interest, Owed(p), s.snaps, U32_MAX) == p.interest;
    var b := Charged(s.borrow, s.snaps, a);
    assert b.positions == map[a := p];
    assert b.used == [0, 0] && b.charged == [0, 0] && b.charges == [0, 0];
  }

  /** The deposit becomes active, and earns nothing for the snapshot before that. */
  lemma DepositAccrues(p: SupplyPosition, amount: nat, snaps: seq<Snapshot>, w: Weights)
    requires p == SupplyPosition(Some(11), 0, [Incoming(2, amount)], 0, Accumulator(0, 0, 1))
    requires |snaps| == 2 && TimesOrdered(snaps) && snaps[1].active == 0 && w.total > 0
    ensures AccrueYield(p, snaps, w, U32_MAX) == SupplyPosition(Some(11), amount, [], 0, Accumulator(0, 0, 2))
  {
    assert Reach(1, U32_MAX, 2) == 2;
    assert [Incoming(2, amount)][1..] == [];
    assert StillIncoming(p.incoming, 2) == [] && ActivatedBy(p.incoming, 2) == amount;
    assert YieldSum(0, p.incoming, snaps, w, 1, 2) == 0 by {
      assert ActivatedBy(p.incoming, 1) == 0;
      ShareOfNothing(Yield(snaps, 1), 0, w);
      hide Share, Yield;
    }
  }

  // ---- Steps of the borrower ----

  lemma Untouched(a: Account, b: Books)
    requires Inv(Standing(a, b), Plain(a)) && b.position.interest == Accumulator(0, 0, 2)
    ensures Guard(Standing(a, b), Plain(a), a) == Some(Debt(a, b))
  {
    hide Inv, Guard;
    AlreadyCharged(Standing(a, b), Plain(a), a, b.position);
  }

  function Borrowing(a: Account, b: Books, amount: nat, fee: nat): (r: Books)
    requires amount <= b.balance
  {
    b.(position := b.position.(inFlight := b.position.inFlight + amount, fees := b.position.fees + fee),
       inFlight := b.inFlight + amount, lending := b.lending + [Receipt(a, amount)], fees := b.fees + fee,
       distribution := b.distribution + fee, balance := b.balance - amount)
  }

  lemma AllAvailable(borrowed: nat)
    requires borrowed <= 20
    ensures Available(20, borrowed, TWO_128) == 20 - borrowed
  {
    assert Retained(20, TWO_128) == 0;
  }

  lemma BorrowStep(a: Account, b: Books, amount: nat, fee: nat)
    requires Inv(Standing(a, b), Plain(a)) && b.position.interest == Accumulator(0, 0, 2)
    requires 0 < amount <= b.balance && Owed(b.position) + amount >= 10 && b.borrowed + b.inFlight + amount <= 20
    ensures Next(Standing(a, b), Plain(a), BorrowStarted(a, amount, fee, true))
            == Some(Standing(a, Borrowing(a, b, amount, fee)))
  {
    hide Inv, Guard, Available;
    Untouched(a, b);
    AllAvailable(b.borrowed + b.inFlight);
    var q := Borrowing(a, b, amount, fee).position;
    assert map[a := b.position][a := q] == map[a := q];
  }

  /** The only loan in flight arrives. */
  function Arrived(b: Books, now: nat): (r: Books)
    requires |b.lending| == 1 && b.lending[0].amount <= b.position.inFlight && b.lending[0].amount <= b.inFlight
  {
    var p := b.position.(inFlight := b.position.inFlight - b.lending[0].amount);
    b.(position := p.(principal := p.principal + b.lending[0].amount,
                      started := if p.started.None? || Liability(p) == 0 then Some(now) else p.started),
       borrowed := b.borrowed + b.lending[0].amount, inFlight := b.inFlight - b.lending[0].amount, lending := [])
  }

  lemma ArriveStep(a: Account, b: Books, now: nat)
    requires Inv(Standing(a, b), Plain(a)) && b.position.interest == Accumulator(0, 0, 2)
    requires |b.lending| == 1 && b.lending[0].account == a
    requires b.lending[0].amount <= b.position.inFlight && b.lending[0].amount <= b.inFlight
    ensures Next(Standing(a, b), Plain(a), BorrowEnded(0, true, now)) == Some(Standing(a, Arrived(b, now)))
  {
    hide Inv, Guard;
    Untouched(a, b);
    var q := Arrived(b, now).position;
    assert map[a := b.position][a := q] == map[a := q];
    assert RemoveAt(b.lending, 0) == [];
  }

  /** A payment that leaves no refund. */
  function Repaying(b: Books, r: Reduction): (q: Books)
    requires r.toFees <= b.position.fees && r.toInterest == 0 && r.toPrincipal <= b.position.principal
    requires r.toPrincipal <= b.borrowed && r.toFees <= b.fees
  {
    b.(position := b.position.(fees := b.position.fees - r.toFees, principal := b.position.principal - r.toPrincipal,
                               started := if b.position.principal == r.toPrincipal then None else b.position.started),
       borrowed := b.borrowed - r.toPrincipal, fees := b.fees - r.toFees,
       balance := b.balance + r.toFees + r.toPrincipal, paid := b.paid + r.toFees, feesPaid := b.feesPaid + r.toFees)
  }

  lemma RepayStep(a: Account, b: Books, r: Reduction)
    requires Inv(Standing(a, b), Plain(a)) && b.position.interest == Accumulator(0, 0, 2)
    requires r.toFees <= b.position.fees && r.toInterest == 0 && r.toPrincipal <= b.position.principal
    requires r.toPrincipal <= b.borrowed && r.toFees <= b.fees && r.toRefund == 0
    requires Split(b.position, r.toFees + r.toPrincipal, 10) == Some(r)
    ensures Next(Standing(a, b), Plain(a), Repaid(a, r.toFees + r.toPrincipal, true))
            == Some(Standing(a, Repaying(b, r)))
  {
    hide Inv, Guard, Split;
    Untouched(a, b);
    var q := Repaying(b, r).position;
    assert map[a := b.position][a := q] == map[a := q];
  }

  // ---- The opening ----

  /** From an empty market, `steps` are on schedule and end in `s` at time `clock`. */
  ghost predicate Leads(a: Account, steps: seq<Step>, clock: nat, s: State) {
    && Inv(EmptyMarket(START, Records(a)), Plain(a)) && Inv(s, Plain(a))
    && Run(EmptyMarket(START, Records(a)), Plain(a), steps) == s
    && Scheduled(DURATION, START, steps) && Clock(START, steps) == clock
  }

  lemma Set(a: Account)
    ensures Leads(a, [], START, EmptyMarket(START, Records(a)))
  {
    PlainInv(a);
    hide Inv, EmptyMarket, Records;
  }

  /** One more step at the end of a run. */
  lemma Extend(a: Account, steps: seq<Step>, clock: nat, s: State, step: Step, t: State)
    requires Leads(a, steps, clock, s) && Next(s, Plain(a), step) == Some(t) && Fits(DURATION, clock, step)
    ensures Leads(a, steps + [step], TimeOf(step, clock), t)
  {
    hide Inv, Next, Run, EmptyMarket, Records, Plain, Fits, TimeOf, Clock, Scheduled;
    var start, c := EmptyMarket(START, Records(a)), Plain(a);
    RunInTwo(start, c, steps, [step]);
    RunOne(s, c, step);
    ScheduledNext(DURATION, START, steps, step);
  }

  function Opening(a: Account): (r: seq<Step>) {
    [Supplied(a, 20, 11)] + [Finalize(20, 0)]
  }

  /** Twenty are actively deposited. */
  lemma OpeningRun(a: Account)
    ensures Leads(a, Opening(a), 20, Finalized(a))
  {
    hide Inv, Next, EmptyMarket, Deposited, Finalized, Records, Plain, Run, Scheduled, Clock;
    Set(a);
    DepositStep(a);
    assert [] + [Supplied(a, 20, 11)] == [Supplied(a, 20, 11)];
    Extend(a, [], START, EmptyMarket(START, Records(a)), Supplied(a, 20, 11), Deposited(a));
    FinalizeStep(a);
    Extend(a, [Supplied(a, 20, 11)], 11, Deposited(a), Finalize(20, 0), Finalized(a));
  }

  function Secure(a: Account): (r: seq<Step>) {
    Opening(a) + [Collateralized(a, 1, true)]
  }

  /** And one unit of collateral is there to borrow against. */
  lemma SecuredRun(a: Account)
    ensures Leads(a, Secure(a), 20, Secured(a))
  {
    hide Inv, Next, EmptyMarket, Finalized, Secured, Records, Plain, Opening, Run, Scheduled, Clock;
    OpeningRun(a);
    CollateralStep(a);
    Extend(a, Opening(a), 20, Finalized(a), Collateralized(a, 1, true), Secured(a));
  }

  // ---- Runs of the borrower ----

  lemma BorrowRun(a: Account, steps: seq<Step>, clock: nat, b: Books, amount: nat, fee: nat)
    requires Leads(a, steps, clock, Standing(a, b)) && b.position.interest == Accumulator(0, 0, 2)
    requires 0 < amount <= b.balance && Owed(b.position) + amount >= 10 && b.borrowed + b.inFlight + amount <= 20
    ensures Leads(a, steps + [BorrowStarted(a, amount, fee, true)], clock, Standing(a, Borrowing(a, b, amount, fee)))
  {
    hide Inv, Next, EmptyMarket, Records, Plain, Standing, Run, Scheduled, Clock, Borrowing;
    BorrowStep(a, b, amount, fee);
    Extend(a, steps, clock, Standing(a, b), BorrowStarted(a, amount, fee, true),
           Standing(a, Borrowing(a, b, amount, fee)));
  }

  lemma ArriveRun(a: Account, steps: seq<Step>, clock: nat, b: Books, now: nat)
    requires Leads(a, steps, clock, Standing(a, b)) && b.position.interest == Accumulator(0, 0, 2)
    requires |b.lending| == 1 && b.lending[0].account == a
    requires b.lending[0].amount <= b.position.inFlight && b.lending[0].amount <= b.inFlight
    requires clock <= now && Chunk(DURATION, clock) == Chunk(DURATION, now)
    ensures Leads(a, steps + [BorrowEnded(0, true, now)], now, Standing(a, Arrived(b, now)))
  {
    hide Inv, Next, EmptyMarket, Records, Plain, Standing, Run, Scheduled, Clock, Arrived;
    ArriveStep(a, b, now);
    Extend(a, steps, clock, Standing(a, b), BorrowEnded(0, true, now), Standing(a, Arrived(b, now)));
  }

  lemma RepayRun(a: Account, steps: seq<Step>, clock: nat, b: Books, r: Reduction)
    requires Leads(a, steps, clock, Standing(a, b)) && b.position.interest == Accumulator(0, 0, 2)
    requires r.toFees <= b.position.fees && r.toInterest == 0 && r.toPrincipal <= b.position.principal
    requires r.toPrincipal <= b.borrowed && r.toFees <= b.fees && r.toRefund == 0
    requires Split(b.position, r.toFees + r.toPrincipal, 10) == Some(r)
    ensures Leads(a, steps + [Repaid(a, r.toFees + r.toPrincipal, true)], clock, Standing(a, Repaying(b, r)))
  {
    hide Inv, Next, EmptyMarket, Records, Plain, Standing, Run, Scheduled, Clock, Repaying, Split;
    RepayStep(a, b, r);
    Extend(a, steps, clock, Standing(a, b), Repaid(a, r.toFees + r.toPrincipal, true), Standing(a, Repaying(b, r)));
  }
}
