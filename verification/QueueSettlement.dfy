/**
 What one execution of the withdrawal queue sends out, and how its callback settles
 that as long as no further snapshot has been finalized.
 */
module QueueSettlement {
  import opened Arith
  import opened Sums
  import opened Accrual
  import opened SupplyLedger
  import opened SupplySteps
  import opened BorrowLedger
  import opened StaticLedger
  import opened Market
  import opened Withdrawals
  import opened WithdrawalBatches
  import opened WithdrawalQueue
  import opened QueueExecution

  /** `t` is `s` after `receipts` were sent out, and the cash with them. */
  ghost predicate Out(s: State, t: State, receipts: seq<Withdrawal>) {
    && t.supply.pending == s.supply.pending + receipts && t.snaps == s.snaps
    && t.balance + PendingToAccounts(receipts) == s.balance
    && t.withdrawing == s.withdrawing + PendingToAccounts(receipts)
    && t.borrow == s.borrow && t.statics == s.statics
  }

  /** Every receipt is for an account of `items`, one for each, whose position is accrued. */
  ghost predicate OneEach(t: State, items: seq<Item>, receipts: seq<Withdrawal>) {
    && (forall i :: 0 <= i < |receipts| ==>
          && Has(items, receipts[i].account) && receipts[i].account in t.supply.positions
          && t.supply.positions[receipts[i].account].earned.next == |t.snaps|)
    && forall i, j :: 0 <= i < j < |receipts| ==> receipts[i].account != receipts[j].account
  }

  /** What the start of a withdrawal adds to the receipts. */
  ghost function Sending(s: State, c: Config, a: Account, requested: nat, fee: nat): (r: seq<Withdrawal>)
    requires Inv(s, c) && WithdrawStart(s, c, a, requested, fee).Some?
  {
    var pending := WithdrawStart(s, c, a, requested, fee).value.supply.pending;
    if |pending| <= |s.supply.pending| then [] else pending[|s.supply.pending|..]
  }

  lemma AttemptSends(s: State, c: Config, a: Account, requested: nat, fee: nat)
    requires Inv(s, c) && a in s.supply.positions && s.supply.positions[a].earned.next == |s.snaps|
    requires Attempt(s, a, requested, fee).Some?
    ensures var t := Attempt(s, a, requested, fee).value;
            && OthersSame(s.supply, t.supply, a) && a in t.supply.positions && ClaimOf(t, a) == ClaimOf(s, a)
            && t.supply.positions[a].earned.next == |t.snaps|
            && (Out(s, t, [])
                || exists x: Withdrawal :: x.account == a && Out(s, t, [x]))
  {
    hide Inv, TotalIncoming, SendOut, Claim, PlanOf;
    var can := Withdrawable(s.supply.positions[a], s.supply.active, s.paid, s.borrow.borrowed);
    assert s.supply.pending + [] == s.supply.pending;
    if can.Some? && can.value > 0 && Attempt(s, a, requested, fee).value != s {
      var amount := Min(requested, can.value);
      SendOutKeepsClaim(s, c, a, amount, fee);
      var x := Withdrawal(a, amount - Min(fee, amount), Min(fee, amount));
      assert PendingToAccounts([x]) == x.toAccount;
      assert Out(s, SendOut(s, a, amount, fee).value, [x]);
    }
  }

  lemma StartSends(s: State, c: Config, a: Account, requested: nat, fee: nat)
    requires Inv(s, c) && WithdrawStart(s, c, a, requested, fee).Some?
    ensures var t, x := WithdrawStart(s, c, a, requested, fee).value, Sending(s, c, a, requested, fee);
            && OthersSame(s.supply, t.supply, a) && ClaimOf(t, a) >= ClaimOf(s, a) && Out(s, t, x) && |x| <= 1
            && (x != [] ==> x[0].account == a && a in t.supply.positions
                            && t.supply.positions[a].earned.next == |t.snaps|)
  {
    hide SupplyInv, BorrowInv, StaticInv, Conserved, Funded, Touched, Attempt, WellFormed, PendingToAccounts;
    assert s.supply.pending + [] == s.supply.pending && PendingToAccounts([]) == 0 by { NothingSent(); }
    if a in s.supply.positions {
      TouchedInv(s, c, a);
      TouchedKeeps(s.supply, s.snaps, c.weights, a);
      var u := s.(supply := Touched(s.supply, s.snaps, c.weights, a));
      AttemptSends(u, c, a, requested, fee);
      TouchedClaim(s.supply, s.snaps, c.weights, a);
      hide Inv, Claim;
      var t := WithdrawStart(s, c, a, requested, fee).value;
      if !Out(u, t, []) {
        var x: Withdrawal :| x.account == a && Out(u, t, [x]);
        assert t.supply.pending[|s.supply.pending|..] == [x];
      }
    }
  }

  /** Accrual only adds to what a supplier can claim. */
  lemma TouchedClaim(s: SupplySide, snaps: seq<Snapshot>, w: Weights, a: Account)
    requires TimesOrdered(snaps) && w.total > 0 && a in s.positions && WellFormed(s.positions[a], |snaps|)
    ensures var t := Touched(s, snaps, w, a);
            a in t.positions && Claim(t.positions[a]) >= Claim(s.positions[a])
  {
    TouchedDeposit(s, snaps, w, a);
    hide DepositTotal, AddUsed, AddCredited, YieldSum, StillIncoming, AmountAt;
  }

  lemma NothingSent()
    ensures PendingToAccounts([]) == 0
  {}

  /** The receipts of the withdrawals an execution starts. */
  ghost function Receipts(s: State, c: Config, items: seq<Item>, fees: seq<nat>): (r: seq<Withdrawal>)
    requires Inv(s, c) && Serve(s, c, items, fees).Some?
    decreases |fees|
  {
    if items == [] || fees == [] then [] else
      var first := ServeFirst(s, c, items, fees[0]).value;
      Sending(s, c, items[0].account, items[0].amount, fees[0])
      + if first.2 then Receipts(first.0, c, first.1, fees[1..]) else []
  }

  lemma {:induction false} SentTwice(first: seq<Withdrawal>, second: seq<Withdrawal>)
    ensures PendingToAccounts(first + second) == PendingToAccounts(first) + PendingToAccounts(second)
    decreases |first|
  {
    if first == [] {
      assert first + second == second;
    } else {
      assert (first + second)[1..] == first[1..] + second;
      SentTwice(first[1..], second);
    }
  }

  lemma OutTwice(s: State, t: State, u: State, first: seq<Withdrawal>, second: seq<Withdrawal>)
    requires Out(s, t, first) && Out(t, u, second)
    ensures Out(s, u, first + second)
  {
    SentTwice(first, second);
    assert s.supply.pending + (first + second) == s.supply.pending + first + second;
    hide PendingToAccounts;
  }

  lemma SameOutside(s: State, t: State, a: Account, b: Account)
    requires OthersSame(s.supply, t.supply, a) && a != b
    ensures SamePosition(s, t, b)
  {}

  /** An execution sends out one withdrawal to each of some suppliers in the queue, from
      positions that are accrued, and leaves everyone outside the queue alone. */
  lemma {:induction false} ServedOut(s: State, c: Config, items: seq<Item>, fees: seq<nat>)
    requires Inv(s, c) && NoDuplicates(items) && Serve(s, c, items, fees).Some?
    ensures var t, receipts := Serve(s, c, items, fees).value.0, Receipts(s, c, items, fees);
            && Inv(t, c) && Out(s, t, receipts) && OneEach(t, items, receipts)
            && (forall b :: !Has(items, b) ==> SamePosition(s, t, b))
            && forall b :: ClaimOf(t, b) >= ClaimOf(s, b)
    decreases |fees|
  {
    hide Inv, ServeFirst, PendingToAccounts, OthersSame, Sending, ClaimOf;
    if items == [] || fees == [] {
      assert Out(s, s, []) by { NothingOut(s); }
    } else {
      var a := items[0].account;
      FirstSent(s, c, items, fees[0]);
      var first := ServeFirst(s, c, items, fees[0]).value;
      var t, rest := first.0, items[1..];
      var x := Sending(s, c, a, items[0].amount, fees[0]);
      if first.2 {
        ServedOut(t, c, rest, fees[1..]);
        var u, y := Serve(s, c, items, fees).value.0, Receipts(t, c, rest, fees[1..]);
        OutTwice(s, t, u, x, y);
        FirstAndRest(s, t, u, items, x, y);
      } else {
        assert x + [] == x;
        FirstAndRest(s, t, t, items, x, []);
      }
    }
  }

  lemma NothingOut(s: State)
    ensures Out(s, s, [])
  {
    assert s.supply.pending + [] == s.supply.pending;
  }

  lemma FirstSent(s: State, c: Config, items: seq<Item>, fee: nat)
    requires Inv(s, c) && items != [] && ServeFirst(s, c, items, fee).Some?
    ensures var a, first := items[0].account, ServeFirst(s, c, items, fee).value;
            && Inv(first.0, c) && (first.2 ==> first.1 == items[1..])
            && WithdrawStart(s, c, a, items[0].amount, fee) == Some(first.0)
            && var t, x := first.0, Sending(s, c, a, items[0].amount, fee);
               && OthersSame(s.supply, t.supply, a) && Out(s, t, x) && |x| <= 1
               && (forall b :: ClaimOf(t, b) >= ClaimOf(s, b))
               && (x != [] ==> x[0].account == a && a in t.supply.positions
                               && t.supply.positions[a].earned.next == |t.snaps|)
  {
    hide Inv, WithdrawStart, WithdrawOutcome, Sending, Out;
    StartSends(s, c, items[0].account, items[0].amount, fee);
  }

  lemma FirstAndRest(s: State, t: State, u: State, items: seq<Item>, x: seq<Withdrawal>, y: seq<Withdrawal>)
    requires items != [] && NoDuplicates(items) && t.snaps == u.snaps && |x| <= 1
    requires OthersSame(s.supply, t.supply, items[0].account)
    requires x != [] ==> x[0].account == items[0].account && items[0].account in t.supply.positions
                         && t.supply.positions[items[0].account].earned.next == |t.snaps|
    requires OneEach(u, items[1..], y) && forall b :: !Has(items[1..], b) ==> SamePosition(t, u, b)
    ensures OneEach(u, items, x + y) && forall b :: !Has(items, b) ==> SamePosition(s, u, b)
  {
    var a, rest := items[0].account, items[1..];
    assert forall b :: Has(rest, b) ==> Has(items, b) by { HasLonger(items); }
    assert Has(items, a) && !Has(rest, a);
    forall b | !Has(items, b) ensures SamePosition(s, u, b) {
      SameOutside(s, t, a, b);
      assert SamePosition(t, u, b);
    }
    assert SamePosition(t, u, a);
    hide Has, NoDuplicates, OthersSame;
  }

  lemma HasLonger(items: seq<Item>)
    requires items != []
    ensures forall b :: Has(items[1..], b) ==> Has(items, b)
  {
    forall b | Has(items[1..], b) ensures Has(items, b) {
      var i :| 0 <= i < |items[1..]| && items[1..][i].account == b;
      assert items[i + 1].account == b;
    }
  }

  // ---- The callback ----

  function Outcomes(receipts: seq<Withdrawal>, successes: seq<bool>): (batch: seq<Resolution>)
    requires |receipts| == |successes|
  {
    if receipts == [] then []
    else [Resolution(receipts[0], successes[0])] + Outcomes(receipts[1..], successes[1..])
  }

  lemma {:induction false} OutcomesAre(receipts: seq<Withdrawal>, successes: seq<bool>)
    requires |receipts| == |successes|
    ensures var batch := Outcomes(receipts, successes);
            && |batch| == |receipts| && ReceiptsIn(batch) == receipts && Cash(batch) == PendingToAccounts(receipts)
            && forall i :: 0 <= i < |batch| ==> batch[i] == Resolution(receipts[i], successes[i])
    decreases |receipts|
  {
    if receipts != [] {
      OutcomesAre(receipts[1..], successes[1..]);
      var batch := Outcomes(receipts, successes);
      assert batch[1..] == Outcomes(receipts[1..], successes[1..]);
    }
  }

  lemma AccruedHasRoom(t: State, c: Config, r: Resolution)
    requires Inv(t, c) && r.receipt.account in t.supply.positions
    requires t.supply.positions[r.receipt.account].earned.next == |t.snaps|
    ensures !NoRoom(t, r)
  {
    hide WellFormed, Full, ListedIn, MarketIncoming, OutgoingPending, PendingOf, SupplyInv, BorrowInv, StaticInv;
    Parts(t.supply, t.snaps, c.weights, r.receipt.account);
    AccruedNotFull(t.supply.positions[r.receipt.account], |t.snaps|);
  }

  /** The callback of an execution never panics before another snapshot is finalized,
      whichever of its transfers fail. */
  lemma PromptCallback(s: State, c: Config, items: seq<Item>, fees: seq<nat>, successes: seq<bool>)
    requires Inv(s, c) && NoDuplicates(items) && Serve(s, c, items, fees).Some?
    requires |successes| == |Receipts(s, c, items, fees)|
    ensures var t, batch := Serve(s, c, items, fees).value.0, Outcomes(Receipts(s, c, items, fees), successes);
            Inv(t, c) && IsBatch(t, batch) && WithdrawalsEnd(t, c, batch).Some?
  {
    hide Inv, Serve, Receipts, SamePosition, NoRoom, PendingToAccounts, WithdrawalsEnd, Outcomes, Cash;
    var receipts := Receipts(s, c, items, fees);
    var t, batch := Serve(s, c, items, fees).value.0, Outcomes(receipts, successes);
    ServedOut(s, c, items, fees);
    OutcomesAre(receipts, successes);
    forall i | 0 <= i < |batch| ensures batch[i].receipt in t.supply.pending && !NoRoom(t, batch[i]) {
      assert t.supply.pending[|s.supply.pending| + i] == receipts[i];
      AccruedHasRoom(t, c, batch[i]);
    }
    BatchPanics(t, c, batch);
  }

  /** If all transfers of an execution fail and none of its callback waits for another
      snapshot, the cash, what is in flight and the loans are what they were before it,
      and nobody's claim is smaller. */
  lemma FailedExecutionUndone(s: State, c: Config, items: seq<Item>, fees: seq<nat>, a: Account)
    requires Inv(s, c) && NoDuplicates(items) && Serve(s, c, items, fees).Some?
    ensures var t, receipts := Serve(s, c, items, fees).value.0, Receipts(s, c, items, fees);
            var batch := Outcomes(receipts, seq(|receipts|, _ => false));
            && Inv(t, c) && WithdrawalsEnd(t, c, batch).Some?
            && var u := WithdrawalsEnd(t, c, batch).value;
               && u.balance == s.balance && u.withdrawing == s.withdrawing && u.borrow == s.borrow
               && multiset(u.supply.pending) == multiset(s.supply.pending)
               && ClaimOf(u, a) >= ClaimOf(s, a)
  {
    hide Inv, Serve, Receipts, SamePosition, PendingToAccounts, WithdrawalsEnd, Outcomes, HoldingsOf, ClaimOf;
    hide IsBatch, OneEach;
    var receipts := Receipts(s, c, items, fees);
    var none := seq(|receipts|, _ => false);
    var t, batch := Serve(s, c, items, fees).value.0, Outcomes(receipts, none);
    PromptCallback(s, c, items, fees, none);
    ServedOut(s, c, items, fees);
    OutcomesAre(receipts, none);
    BatchSettles(t, c, batch, a);
    AllReturned(batch, a);
    Cancel(multiset(WithdrawalsEnd(t, c, batch).value.supply.pending), multiset(s.supply.pending), multiset(receipts));
  }

  lemma Cancel(x: multiset<Withdrawal>, y: multiset<Withdrawal>, common: multiset<Withdrawal>)
    requires x + common == y + common
    ensures x == y
  {
    forall r | r in x + y ensures x[r] == y[r] {
      assert (x + common)[r] == (y + common)[r];
    }
  }

  lemma {:induction false} AllReturned(batch: seq<Resolution>, a: Account)
    requires forall i :: 0 <= i < |batch| ==> !batch[i].success
    ensures CashReturned(batch) == Cash(batch) && PaidTo(batch, a) == 0
    decreases |batch|
  {
    if batch != [] {
      AllReturned(batch[1..], a);
    }
  }
}
