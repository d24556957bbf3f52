/**
 The callback of a whole execution of the withdrawal queue. It settles every
 withdrawal the execution sent out, or none: where one of them panics, all stay in
 flight, those of other suppliers included.
 */
module WithdrawalBatches {
  import opened Arith
  import opened Sums
  import opened SupplyLedger
  import opened SupplySteps
  import opened Market
  import opened MarketRuns
  import opened Withdrawals

  /** Withdrawals in flight, of which one execution sends each supplier at most one. */
  ghost predicate IsBatch(s: State, batch: seq<Resolution>) {
    && (forall i :: 0 <= i < |batch| ==> batch[i].receipt in s.supply.pending)
    && (forall i, j :: 0 <= i < j < |batch| ==> batch[i].receipt.account != batch[j].receipt.account)
  }

  /** The transfer failed and the position has no room for another incoming entry. */
  predicate NoRoom(s: State, r: Resolution) {
    var a := r.receipt.account;
    !r.success && a in s.supply.positions && Full(s.supply.positions[a], |s.snaps|)
  }

  ghost predicate Blocked(s: State, batch: seq<Resolution>) {
    exists i :: 0 <= i < |batch| && NoRoom(s, batch[i])
  }

  // ---- What a batch brings back and what it pays ----

  function Returned(r: Resolution, a: Account): (n: nat) {
    if !r.success && r.receipt.account == a then AmountOf(r.receipt) else 0
  }

  function Paid(r: Resolution, a: Account): (n: nat) {
    if r.success && r.receipt.account == a then AmountOf(r.receipt) else 0
  }

  function ReturnedTo(batch: seq<Resolution>, a: Account): (n: nat) {
    if batch == [] then 0 else Returned(batch[0], a) + ReturnedTo(batch[1..], a)
  }

  function PaidTo(batch: seq<Resolution>, a: Account): (n: nat) {
    if batch == [] then 0 else Paid(batch[0], a) + PaidTo(batch[1..], a)
  }

  function Cash(batch: seq<Resolution>): (n: nat) {
    if batch == [] then 0 else batch[0].receipt.toAccount + Cash(batch[1..])
  }

  function CashReturned(batch: seq<Resolution>): (n: nat) {
    if batch == [] then 0
    else (if batch[0].success then 0 else batch[0].receipt.toAccount) + CashReturned(batch[1..])
  }

  function FeesTaken(batch: seq<Resolution>): (n: nat) {
    if batch == [] then 0 else (if batch[0].success then batch[0].receipt.toFees else 0) + FeesTaken(batch[1..])
  }

  /** How settling moves the figures, seen from account `a`. */
  ghost predicate Moved(s: State, t: State, c: Config, a: Account, returned: nat, paid: nat,
                        cashReturned: nat, cash: nat, fees: nat, receipts: multiset<Withdrawal>) {
    && HoldingsOf(t, a) == HoldingsOf(s, a) + returned && ClaimOf(t, a) + paid == ClaimOf(s, a)
    && t.balance == s.balance + cashReturned && t.withdrawing + cash == s.withdrawing
    && c.protocol in s.statics.records && c.protocol in t.statics.records
    && t.statics.records[c.protocol].earned.total == s.statics.records[c.protocol].earned.total + fees
    && multiset(t.supply.pending) + receipts == multiset(s.supply.pending)
    && Undisturbed(s, t)
  }

  ghost predicate MovedBy(s: State, t: State, c: Config, a: Account, r: Resolution) {
    Moved(s, t, c, a, Returned(r, a), Paid(r, a), if r.success then 0 else r.receipt.toAccount, r.receipt.toAccount,
          if r.success then r.receipt.toFees else 0, multiset{r.receipt})
  }

  /** The whole of what settling `batch` does, seen from account `a`. */
  ghost predicate Settled(s: State, t: State, c: Config, batch: seq<Resolution>, a: Account) {
    Moved(s, t, c, a, ReturnedTo(batch, a), PaidTo(batch, a), CashReturned(batch), Cash(batch), FeesTaken(batch),
          multiset(ReceiptsIn(batch)))
  }

  /** `a` has the same position in both, or none in both. */
  ghost predicate SamePosition(s: State, t: State, a: Account) {
    && (a in s.supply.positions <==> a in t.supply.positions)
    && (a in s.supply.positions ==> s.supply.positions[a] == t.supply.positions[a])
  }

  lemma ReturnedOne(s: State, c: Config, r: Resolution, a: Account)
    requires Inv(s, c) && !r.success && Resolve(s, c, r).Some?
    ensures var t := Resolve(s, c, r).value;
            MovedBy(s, t, c, a, r) && (a != r.receipt.account ==> SamePosition(s, t, a))
  {
    hide Inv, WithdrawEnd, Holdings, Claim, AmountOf, FindReceipt, Full, RemoveAt, Undisturbed;
    var k := FindReceipt(s.supply.pending, r.receipt);
    ResolveSame(s, c, r);
    FailedCallbackRestores(s, c, k);
    RemovedReceipt(s.supply.pending, k);
    ProtocolKnown(s, c);
  }

  lemma PaidOne(s: State, c: Config, r: Resolution, a: Account)
    requires Inv(s, c) && r.success && Resolve(s, c, r).Some?
    ensures var t := Resolve(s, c, r).value;
            MovedBy(s, t, c, a, r) && (a != r.receipt.account ==> SamePosition(s, t, a))
  {
    hide Inv, WithdrawEnd, Holdings, Claim, AmountOf, FindReceipt, RemoveAt, Undisturbed;
    var k := FindReceipt(s.supply.pending, r.receipt);
    ResolveSame(s, c, r);
    SuccessfulCallbackPays(s, c, k);
    RemovedReceipt(s.supply.pending, k);
  }

  lemma ResolvedOne(s: State, c: Config, r: Resolution, a: Account)
    requires Inv(s, c) && Resolve(s, c, r).Some?
    ensures var t := Resolve(s, c, r).value;
            MovedBy(s, t, c, a, r) && (a != r.receipt.account ==> SamePosition(s, t, a))
  {
    hide *;
    if r.success {
      PaidOne(s, c, r, a);
    } else {
      ReturnedOne(s, c, r, a);
    }
  }

  lemma SettledFirst(s: State, t: State, u: State, c: Config, batch: seq<Resolution>, a: Account)
    requires batch != [] && MovedBy(s, t, c, a, batch[0]) && Settled(t, u, c, batch[1..], a)
    ensures Settled(s, u, c, batch, a)
  {
    hide HoldingsOf, ClaimOf, Returned, Paid;
    assert multiset(ReceiptsIn(batch)) == multiset{batch[0].receipt} + multiset(ReceiptsIn(batch[1..]));
  }

  /** A callback that does not panic gives every failed amount back to its supplier and
      the cash with it, takes every amount paid off its supplier's claim and credits the
      fees to the protocol's account, in whatever state it finds the market. */
  lemma {:induction false} BatchSettles(s: State, c: Config, batch: seq<Resolution>, a: Account)
    requires Inv(s, c) && WithdrawalsEnd(s, c, batch).Some?
    ensures Settled(s, WithdrawalsEnd(s, c, batch).value, c, batch, a)
    decreases |batch|
  {
    hide Inv, Resolve, HoldingsOf, ClaimOf, MovedBy;
    if batch == [] {
      ProtocolKnown(s, c);
    } else {
      var t := Resolve(s, c, batch[0]).value;
      ResolvedOne(s, c, batch[0], a);
      BatchSettles(t, c, batch[1..], a);
      hide Settled;
      SettledFirst(s, t, WithdrawalsEnd(s, c, batch).value, c, batch, a);
    }
  }

  /** Suppliers without a withdrawal in the batch keep their position as it is. */
  lemma {:induction false} OthersUntouched(s: State, c: Config, batch: seq<Resolution>, a: Account)
    requires Inv(s, c) && WithdrawalsEnd(s, c, batch).Some?
    requires forall i :: 0 <= i < |batch| ==> batch[i].receipt.account != a
    ensures SamePosition(s, WithdrawalsEnd(s, c, batch).value, a)
    decreases |batch|
  {
    hide Inv, Resolve, MovedBy;
    if batch != [] {
      ResolvedOne(s, c, batch[0], a);
      OthersUntouched(Resolve(s, c, batch[0]).value, c, batch[1..], a);
    }
  }

  // ---- When the callback panics ----

  lemma ResolvePanics(s: State, c: Config, r: Resolution)
    requires Inv(s, c) && r.receipt in s.supply.pending
    ensures Resolve(s, c, r).None? <==> NoRoom(s, r)
  {
    hide Inv, WithdrawEnd, FindReceipt, Full;
    WithdrawEndKeeps(s, c, FindReceipt(s.supply.pending, r.receipt), r.success);
  }

  /** Settling one receipt of a batch leaves the others as they were. */
  lemma RestOfBatch(s: State, c: Config, batch: seq<Resolution>)
    requires Inv(s, c) && batch != [] && IsBatch(s, batch) && Resolve(s, c, batch[0]).Some?
    ensures var t := Resolve(s, c, batch[0]).value;
            && IsBatch(t, batch[1..])
            && forall i :: 0 < i < |batch| ==> (NoRoom(t, batch[i]) <==> NoRoom(s, batch[i]))
  {
    hide Inv, Resolve, Full, HoldingsOf, ClaimOf, Returned, Paid;
    var t := Resolve(s, c, batch[0]).value;
    forall i | 0 < i < |batch|
      ensures batch[i].receipt in t.supply.pending && (NoRoom(t, batch[i]) <==> NoRoom(s, batch[i]))
    {
      ResolvedOne(s, c, batch[0], batch[i].receipt.account);
      StillPending(s.supply.pending, t.supply.pending, batch[0].receipt, batch[i].receipt);
    }
  }

  lemma StillPending(before: seq<Withdrawal>, after: seq<Withdrawal>, gone: Withdrawal, r: Withdrawal)
    requires multiset(after) + multiset{gone} == multiset(before) && r in before && r != gone
    ensures r in after
  {
    assert r in multiset(before);
  }

  /** The callback panics if and only if one of its failed withdrawals finds no room. */
  lemma {:induction false} BatchPanics(s: State, c: Config, batch: seq<Resolution>)
    requires Inv(s, c) && IsBatch(s, batch)
    ensures WithdrawalsEnd(s, c, batch).None? <==> Blocked(s, batch)
    decreases |batch|
  {
    hide Inv, Resolve, NoRoom;
    if batch != [] {
      ResolvePanics(s, c, batch[0]);
      if Resolve(s, c, batch[0]).Some? {
        var t, rest := Resolve(s, c, batch[0]).value, batch[1..];
        RestOfBatch(s, c, batch);
        hide IsBatch;
        BatchPanics(t, c, rest);
        assert forall i :: 0 <= i < |rest| ==> rest[i] == batch[i + 1];
        assert Blocked(t, rest) <==> Blocked(s, batch);
      }
    }
  }

  // ---- As a step of a run ----

  lemma {:induction false} OnlyOne(batch: seq<Resolution>, i: nat)
    requires i < |batch|
    requires forall j, k :: 0 <= j < k < |batch| ==> batch[j].receipt.account != batch[k].receipt.account
    ensures ReturnedTo(batch, batch[i].receipt.account) == Returned(batch[i], batch[i].receipt.account)
    ensures PaidTo(batch, batch[i].receipt.account) == Paid(batch[i], batch[i].receipt.account)
    decreases |batch|
  {
    var a := batch[i].receipt.account;
    if i == 0 {
      NoneOf(batch[1..], a);
    } else {
      OnlyOne(batch[1..], i - 1);
    }
  }

  lemma {:induction false} NoneOf(batch: seq<Resolution>, a: Account)
    requires forall i :: 0 <= i < |batch| ==> batch[i].receipt.account != a
    ensures ReturnedTo(batch, a) == 0 && PaidTo(batch, a) == 0
    decreases |batch|
  {
    if batch != [] {
      NoneOf(batch[1..], a);
    }
  }

  lemma NextBatch(s: State, c: Config, batch: seq<Resolution>)
    requires Inv(s, c)
    ensures Next(s, c, WithdrawalsEnded(batch)) == WithdrawalsEnd(s, c, batch)
  {
    hide WithdrawalsEnd;
  }

  /** A failed withdrawal is back with its supplier, who can ask for it again, if and
      only if no failed withdrawal of the whole batch finds its position full. */
  lemma RestoredExactly(s: State, c: Config, batch: seq<Resolution>, i: nat)
    requires Inv(s, c) && IsBatch(s, batch) && i < |batch| && !batch[i].success && AmountOf(batch[i].receipt) > 0
    ensures var a := batch[i].receipt.account;
            HoldingsOf(After(s, c, WithdrawalsEnded(batch)), a) == HoldingsOf(s, a) + AmountOf(batch[i].receipt)
            <==> !Blocked(s, batch)
  {
    hide Inv, Next, WithdrawalsEnd, HoldingsOf, ClaimOf, AmountOf, Blocked;
    NextBatch(s, c, batch);
    BatchPanics(s, c, batch);
    if WithdrawalsEnd(s, c, batch).Some? {
      BatchSettles(s, c, batch, batch[i].receipt.account);
      OnlyOne(batch, i);
    }
  }

  /** A withdrawal that was paid is taken off its supplier's claim under the same
      condition; otherwise it has left the market but still counts as in flight. */
  lemma PaidExactly(s: State, c: Config, batch: seq<Resolution>, i: nat)
    requires Inv(s, c) && IsBatch(s, batch) && i < |batch| && batch[i].success && AmountOf(batch[i].receipt) > 0
    ensures var a := batch[i].receipt.account;
            ClaimOf(After(s, c, WithdrawalsEnded(batch)), a) == ClaimOf(s, a) - AmountOf(batch[i].receipt)
            <==> !Blocked(s, batch)
  {
    hide Inv, Next, WithdrawalsEnd, HoldingsOf, ClaimOf, AmountOf, Blocked;
    NextBatch(s, c, batch);
    BatchPanics(s, c, batch);
    if WithdrawalsEnd(s, c, batch).Some? {
      BatchSettles(s, c, batch, batch[i].receipt.account);
      OnlyOne(batch, i);
    }
  }
}
