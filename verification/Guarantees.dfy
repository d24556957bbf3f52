/**
 What every reachable state of the market guarantees.
 */
module Guarantees {
  import opened Arith
  import opened Sums
  import opened Accrual
  import opened SupplyLedger
  import opened SupplySteps
  import opened BorrowLedger
  import opened StaticLedger
  import opened Market
  import opened MarketRuns

  // ---- Cash ----

  function PendingToFees(pending: seq<Withdrawal>): (r: nat) {
    if pending == [] then 0 else pending[0].toFees + PendingToFees(pending[1..])
  }

  lemma {:induction false} PendingSplits(pending: seq<Withdrawal>)
    ensures PendingTotal(pending) == PendingToAccounts(pending) + PendingToFees(pending)
    decreases |pending|
  {
    if pending != [] {
      PendingSplits(pending[1..]);
    }
  }

  /** Whatever borrowers hold or static accounts have drawn is covered by deposits,
      by the yield set aside, and by fees and surplus: the market never lends out
      more than it was given. */
  lemma LoansAreCovered(s: State, c: Config)
    requires Inv(s, c)
    ensures s.borrow.borrowed + s.borrow.inFlight + s.statics.withdrawn + s.balance
            == s.supply.active + TotalIncoming(s.supply.incoming) + PendingToFees(s.supply.pending)
               + s.paid + s.surplus + s.statics.received
    ensures s.borrow.borrowed + s.borrow.inFlight + s.statics.withdrawn
            <= s.supply.active + TotalIncoming(s.supply.incoming) + PendingToFees(s.supply.pending)
               + s.paid + s.surplus + s.statics.received
  {
    PendingSplits(s.supply.pending);
    assert SumBy(s.supply.positions, Outgoing()) == PendingTotal(s.supply.pending) by {
      assert OutgoingPending(s.supply.positions, s.supply.pending);
    }
    hide SupplyInv, BorrowInv, StaticInv, SumBy, TotalIncoming, PendingTotal, PendingToAccounts, PendingToFees;
  }

  /** The market's totals are sums over the positions. */
  lemma TotalsAreSums(s: State, c: Config)
    requires Inv(s, c)
    ensures s.supply.active == SumBy(s.supply.positions, Open(|s.snaps|))
    ensures TotalIncoming(s.supply.incoming) == SumBy(s.supply.positions, Due(|s.snaps| + 1))
    ensures s.borrow.borrowed == SumBy(s.borrow.positions, Principal())
    ensures s.borrow.inFlight == SumBy(s.borrow.positions, InFlight()) == ReceiptsTotal(s.borrow.lending)
    ensures s.borrow.collateral == SumBy(s.borrow.positions, Collateral())
    ensures s.withdrawing == PendingToAccounts(s.supply.pending)
    ensures forall a :: Part(s.supply.positions, Outgoing(), a) == PendingOf(s.supply.pending, a)
    ensures forall a :: Part(s.borrow.positions, InFlight(), a) == ReceiptsOf(s.borrow.lending, a)
    ensures forall a :: Part(s.borrow.positions, CollateralInFlight(), a) == ReceiptsOf(s.borrow.returning, a)
  {
    hide SumBy, Conserved, Funded, History, Charging, StaticHistory, TotalIncoming, PendingOf, ReceiptsOf;
    assert Totals(s.supply, |s.snaps|) && TotalsMatch(s.borrow) && FlightsMatch(s.borrow);
    assert OutgoingPending(s.supply.positions, s.supply.pending);
  }

  // ---- Yield ----

  lemma SharesFit(x: nat, y: nat, pot: nat, supply: nat, used: nat, total: nat)
    requires 0 < supply && used + supply <= total && x * total <= pot * supply && y * total <= pot * used
    ensures x + y <= pot
  {
    assert (x + y) * total <= pot * (supply + used) by {
      assert (x + y) * total == x * total + y * total;
      assert pot * (supply + used) == pot * supply + pot * used;
    }
    MulMono(supply + used, total, pot);
    if x + y > pot {
      ScaleLess(pot, x + y, total);
      assert false;
    }
  }

  /** Of every snapshot's yield, suppliers and static accounts together are credited
      no more than there is. */
  lemma SnapshotNotOverspent(s: State, c: Config, j: nat)
    requires Inv(s, c) && 1 <= j < |s.snaps|
    ensures |s.supply.credited| == |s.statics.credited| == |s.snaps|
    ensures s.supply.credited[j] + s.statics.credited[j] <= Yield(s.snaps, j)
  {
    var w, pot := c.weights, Yield(s.snaps, j);
    assert BackedAt(s.supply.positions, s.supply.used, s.snaps, j);
    assert CreditAt(s.supply.used, s.supply.credited, s.snaps, w, j);
    assert WeightAt(s.statics, w, j) && StaticCreditAt(s.statics, s.snaps, w, j);
    hide Inv, SumBy, Yield;
    var active, used, x := s.snaps[j].active, s.supply.used[j], s.supply.credited[j];
    assert x * w.total <= pot * w.supply by {
      if active > 0 {
        CreditScaled(x, pot, used, active, w);
      }
    }
    SharesFit(x, s.statics.credited[j], pot, w.supply, s.statics.used[j], w.total);
  }

  lemma CreditScaled(x: nat, pot: nat, used: nat, active: nat, w: Weights)
    requires used <= active && active > 0
    requires x * (active * w.total) <= pot * used * w.supply
    ensures x * w.total <= pot * w.supply
  {
    assert pot * used * w.supply <= pot * active * w.supply by {
      MulMono(used, active, pot);
      MulMono(pot * used, pot * active, w.supply);
    }
    assert x * (active * w.total) == active * (x * w.total);
    assert pot * active * w.supply == active * (pot * w.supply);
    CancelScale(x * w.total, pot * w.supply, active);
  }

  /** All the yield of the first `n` snapshots. */
  function YieldTotal(snaps: seq<Snapshot>, n: nat): (r: nat)
    requires TimesOrdered(snaps) && n <= |snaps|
  {
    if n <= 1 then 0 else YieldTotal(snaps, n - 1) + Yield(snaps, n - 1)
  }

  function InterestTotal(snaps: seq<Snapshot>, n: nat): (r: nat)
    requires TimesOrdered(snaps) && n <= |snaps|
  {
    if n <= 1 then 0 else InterestTotal(snaps, n - 1) + Interest(snaps[n - 1].borrowed, Charge(snaps, n - 1))
  }

  lemma {:induction false} YieldSplits(snaps: seq<Snapshot>, n: nat)
    requires TimesOrdered(snaps) && 1 <= n <= |snaps|
    ensures YieldTotal(snaps, n) <= InterestTotal(snaps, n) + Distributed(snaps[..n]) * TWO_128
  {
    assert snaps[..n][..n - 1] == snaps[..n - 1];
    hide Interest, Charge;
    if n > 1 {
      YieldSplits(snaps, n - 1);
    }
  }

  lemma CreditSizes(s: State, c: Config)
    requires Inv(s, c)
    ensures |s.supply.credited| == |s.statics.credited| == |s.snaps|
    ensures s.supply.credited[0] == 0 && s.statics.credited[0] == 0
  {
    assert History(s.supply, s.snaps, c.weights) && StaticHistory(s.statics, s.snaps, c.weights);
  }

  lemma {:induction false} CreditsWithinYield(s: State, c: Config, n: nat)
    requires Inv(s, c) && 1 <= n <= |s.snaps|
    ensures |s.supply.credited| == |s.statics.credited| == |s.snaps|
    ensures Total(s.supply.credited[..n]) + Total(s.statics.credited[..n]) <= YieldTotal(s.snaps, n)
  {
    var x, y := s.supply.credited, s.statics.credited;
    hide SupplyInv, BorrowInv, StaticInv, Conserved, Funded, Yield;
    CreditSizes(s, c);
    assert x[..n][..n - 1] == x[..n - 1] && y[..n][..n - 1] == y[..n - 1];
    assert x[..n][n - 1] == x[n - 1] && y[..n][n - 1] == y[n - 1];
    if n > 1 {
      CreditsWithinYield(s, c, n - 1);
      SnapshotNotOverspent(s, c, n - 1);
    } else {
      assert x[..0] == [] && y[..0] == [];
    }
  }

  /** Interest on principal not yet charged for snapshot `j`, rounded up. */
  ghost function Outstanding(b: BorrowSide, snaps: seq<Snapshot>, j: nat): (r: nat)
    requires TimesOrdered(snaps) && 1 <= j < |snaps|
  {
    var open := SumBy(b.positions, Uncharged(j));
    if open == 0 then 0 else Interest(open, Charge(snaps, j)) + 1
  }

  ghost function OutstandingTotal(b: BorrowSide, snaps: seq<Snapshot>, n: nat): (r: nat)
    requires TimesOrdered(snaps) && n <= |snaps|
  {
    if n <= 1 then 0 else OutstandingTotal(b, snaps, n - 1) + Outstanding(b, snaps, n - 1)
  }

  /** Of every snapshot's interest, borrowers were charged all but a unit of `2^-128`
      for each position charged and the part still outstanding, and no more than all. */
  lemma SnapshotCharged(b: BorrowSide, snaps: seq<Snapshot>, j: nat)
    requires BorrowInv(b, snaps) && 1 <= j < |snaps|
    ensures |b.charged| == |b.charges| == |snaps|
    ensures var interest := Interest(snaps[j].borrowed, Charge(snaps, j));
            b.charged[j] <= interest <= b.charged[j] + b.charges[j] + Outstanding(b, snaps, j)
  {
    assert OwedAt(b, snaps, j) && ChargedAt(b, snaps, j);
    InterestAdds(b.used[j], SumBy(b.positions, Uncharged(j)), Charge(snaps, j));
    hide BorrowInv, SumBy, Interest, Charge;
  }

  lemma {:induction false} InterestIsCharged(b: BorrowSide, snaps: seq<Snapshot>, n: nat)
    requires BorrowInv(b, snaps) && 1 <= n <= |snaps|
    ensures |b.charged| == |b.charges| == |snaps|
    ensures Total(b.charged[..n]) <= InterestTotal(snaps, n)
    ensures InterestTotal(snaps, n) <= Total(b.charged[..n]) + Total(b.charges[..n]) + OutstandingTotal(b, snaps, n)
  {
    var x, y := b.charged, b.charges;
    assert |x| == |y| == |snaps| && x[0] == 0 by { assert Charging(b, snaps); }
    assert x[..n][..n - 1] == x[..n - 1] && y[..n][..n - 1] == y[..n - 1];
    assert x[..n][n - 1] == x[n - 1] && y[..n][n - 1] == y[n - 1];
    if n > 1 {
      InterestIsCharged(b, snaps, n - 1);
      SnapshotCharged(b, snaps, n - 1);
    } else {
      assert x[..0] == [];
    }
    hide BorrowInv, Interest, Charge, Outstanding;
  }

  /** Yield is funded: all that suppliers and static accounts ever earned, held or
      withdrawn, is at most the fees they received plus what borrowers were charged,
      owed or repaid, plus the liquidation surplus. The slack is one unit of `2^-128`
      for each charge, and the interest not yet charged. */
  lemma YieldIsFunded(s: State, c: Config)
    requires Inv(s, c)
    ensures SumBy(s.supply.positions, Earned()) + s.supply.taken * TWO_128
            + SumBy(s.statics.records, EarnedStatic()) + s.statics.withdrawn * TWO_128
            <= s.statics.received * TWO_128
               + SumBy(s.borrow.positions, InterestOwed()) + s.borrow.repaid * TWO_128 + s.borrow.dropped
               + (s.borrow.fees + s.feesPaid + s.surplus) * TWO_128
               + Total(s.borrow.charges) + OutstandingTotal(s.borrow, s.snaps, |s.snaps|)
  {
    var n := |s.snaps|;
    CreditsWithinYield(s, c, n);
    YieldSplits(s.snaps, n);
    InterestIsCharged(s.borrow, s.snaps, n);
    assert s.supply.credited[..n] == s.supply.credited && s.statics.credited[..n] == s.statics.credited;
    assert s.borrow.charged[..n] == s.borrow.charged && s.borrow.charges[..n] == s.borrow.charges;
    assert s.snaps[..n] == s.snaps;
    assert Earnings(s.supply) && StaticBooks(s.statics) && Interests(s.borrow) && Funded(s);
    hide Inv, SumBy, Total, YieldTotal, InterestTotal, OutstandingTotal, Distributed;
    hide Earned, EarnedStatic, InterestOwed;
  }

  /** Nothing is outstanding once every borrower's interest is charged up to date. */
  lemma {:induction false} NothingOutstanding(b: BorrowSide, snaps: seq<Snapshot>, n: nat)
    requires TimesOrdered(snaps) && n <= |snaps|
    requires forall a :: a in b.positions ==> b.positions[a].interest.next >= n
    ensures OutstandingTotal(b, snaps, n) == 0
  {
    if n > 1 {
      NothingOutstanding(b, snaps, n - 1);
      SumZero(b.positions, Uncharged(n - 1));
      hide SumBy;
    }
  }

  /** The market is solvent: what it owes to suppliers and static accounts, deposits and
      yield, is covered by the cash it holds or has under way and by what borrowers owe,
      up to the fractions dropped, one unit of `2^-128` for each charge, and the interest
      not yet charged. */
  ghost predicate Solvent(s: State)
    requires TimesOrdered(s.snaps)
  {
    (s.supply.active + TotalIncoming(s.supply.incoming) + SumBy(s.supply.positions, Outgoing())) * TWO_128
    + SumBy(s.supply.positions, Earned()) + SumBy(s.statics.records, EarnedStatic())
    <= (s.balance + s.withdrawing + s.borrow.borrowed + s.borrow.inFlight + s.borrow.fees) * TWO_128
       + SumBy(s.borrow.positions, InterestOwed()) + s.borrow.dropped
       + Total(s.borrow.charges) + OutstandingTotal(s.borrow, s.snaps, |s.snaps|)
  }

  lemma MarketIsSolvent(s: State, c: Config)
    requires Inv(s, c)
    ensures Solvent(s)
  {
    YieldIsFunded(s, c);
    assert Conserved(s) && Funded(s);
    hide Inv, SumBy, Total, OutstandingTotal, Distributed, TotalIncoming, Earned, EarnedStatic, InterestOwed;
  }

  // ---- Incoming lists ----

  /** The market expects deposits only at the next snapshot; a position has at most
      four entries, in strictly rising order, none of them activated or later than that. */
  lemma IncomingListsStayShort(s: State, c: Config, a: Account)
    requires Inv(s, c)
    ensures MarketIncoming(s.supply.incoming, |s.snaps|)
    ensures a in s.supply.positions ==>
              var p := s.supply.positions[a];
              && IncomingShape(p.incoming, p.earned.next, |s.snaps|)
              && (p.earned.next == |s.snaps| ==> |p.incoming| <= 1)
  {
    hide SupplyInv, BorrowInv, StaticInv, Conserved, Funded;
    Parts(s.supply, s.snaps, c.weights, a);
    if a in s.supply.positions && s.supply.positions[a].earned.next == |s.snaps| {
      AccruedShape(s.supply.positions[a].incoming, |s.snaps|);
    }
  }

  // ---- Every run ----

  /** From the empty market, whatever calls are made, in whatever order, and however
      the transfers end: cash is conserved, the market is solvent, loans are covered, and
      no snapshot's yield is overspent. */
  lemma EveryRun(start: nat, records: map<Account, StaticRecord>, c: Config, steps: seq<Step>)
    requires ValidConfig(c) && FreshRecords(records, c)
    ensures Inv(EmptyMarket(start, records), c)
    ensures var s := Run(EmptyMarket(start, records), c, steps);
            && Inv(s, c) && Conserved(s) && Funded(s) && Solvent(s)
            && s.borrow.borrowed + s.borrow.inFlight + s.statics.withdrawn
               <= s.supply.active + TotalIncoming(s.supply.incoming) + PendingToFees(s.supply.pending)
                  + s.paid + s.surplus + s.statics.received
            && |s.supply.credited| == |s.statics.credited| == |s.snaps|
            && forall j :: 1 <= j < |s.snaps| ==>
                 s.supply.credited[j] + s.statics.credited[j] <= Yield(s.snaps, j)
  {
    hide SupplyInv, BorrowInv, StaticInv, EmptyMarket, Conserved, Funded, Solvent, Run;
    hide TotalIncoming, PendingToFees, Yield;
    EmptyMarketInv(start, records, c);
    var s := Run(EmptyMarket(start, records), c, steps);
    LoansAreCovered(s, c);
    MarketIsSolvent(s, c);
    CreditSizes(s, c);
    forall j | 1 <= j < |s.snaps| ensures s.supply.credited[j] + s.statics.credited[j] <= Yield(s.snaps, j) {
      SnapshotNotOverspent(s, c, j);
    }
  }
}
