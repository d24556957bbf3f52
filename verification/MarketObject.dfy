/**
 The market as the program keeps it: one object whose fields the calls update in
 place. Every call is proved to take the state it finds to the one the step of the
 same call in `Market` gives, and to fail exactly when that step does.
 */
module MarketObject {
  import opened Arith
  import opened Sums
  import opened Accrual
  import opened SupplyLedger
  import opened SupplySteps
  import opened BorrowLedger
  import opened BorrowSteps
  import opened StaticLedger
  import opened Market

  // ---- Positions ----

  /** The sum a position's incoming entries come to. */
  method SumIncoming(incoming: seq<Incoming>) returns (total: nat)
    ensures total == TotalIncoming(incoming)
  {
    total := 0;
    assert incoming[..0] == [];
    for i := 0 to |incoming|
      invariant total == TotalIncoming(incoming[..i])
    {
      assert incoming[..i + 1] == incoming[..i] + [incoming[i]];
      ConcatParts(incoming[..i], incoming[i], 0);
      total := total + incoming[i].amount;
    }
    assert incoming[..|incoming|] == incoming;
  }

  /** Activates the leading entries that are due. */
  method ActivateIncoming(p: SupplyPosition, through: nat) returns (q: SupplyPosition)
    ensures q == p.(active := AmountAt(p, through), incoming := StillIncoming(p.incoming, through))
  {
    var i, active := 0, p.active;
    assert p.incoming[0..] == p.incoming;
    while i < |p.incoming| && p.incoming[i].at <= through
      invariant 0 <= i <= |p.incoming|
      invariant active + ActivatedBy(p.incoming[i..], through) == AmountAt(p, through)
      invariant StillIncoming(p.incoming[i..], through) == StillIncoming(p.incoming, through)
    {
      assert p.incoming[i..][1..] == p.incoming[i + 1..];
      active := active + p.incoming[i].amount;
      i := i + 1;
    }
    q := p.(active := active, incoming := p.incoming[i..]);
  }

  /** Yield first, then incoming, then active deposits. */
  method MakePlan(p: SupplyPosition, paid: nat, amount: nat) returns (plan: Plan)
    ensures plan == PlanOf(p, paid, amount)
  {
    var own := SumIncoming(p.incoming);
    var left := amount;
    var fromYield := Min(Min(p.earned.total, paid), left);
    left := left - fromYield;
    var fromIncoming := Min(own, left);
    left := left - fromIncoming;
    plan := Plan(fromYield, fromIncoming, left);
  }

  method FindEntry(incoming: seq<Incoming>, at: nat) returns (k: nat)
    ensures k == FindAt(incoming, at)
  {
    k := 0;
    while k < |incoming| && incoming[k].at != at
      invariant 0 <= k <= |incoming|
      invariant forall i :: 0 <= i < k ==> incoming[i].at != at
    {
      k := k + 1;
    }
  }

  function Unlisted(incoming: seq<Incoming>, at: nat): (r: seq<Incoming>) {
    var k := FindAt(incoming, at);
    if k < |incoming| then RemoveAt(incoming, k) else incoming
  }

  /** What finalizing a snapshot does to the market's fields. */
  lemma TickFields(s: State, now: nat, rate: nat)
    requires s.snaps != []
    ensures Tick(s, now, rate).None? <==> now < s.snaps[|s.snaps| - 1].end || |s.snaps| >= U32_MAX
    ensures Tick(s, now, rate).Some? ==>
            var t, count := Tick(s, now, rate).value, |s.snaps|;
            && t.supply.active == s.supply.active + AmountListedAt(s.supply.incoming, count + 1)
            && t.supply.incoming == Unlisted(s.supply.incoming, count + 1)
            && t.snaps == s.snaps + [Snapshot(now, s.supply.active + AmountListedAt(s.supply.incoming, count),
                                              s.borrow.borrowed + s.borrow.inFlight, s.distribution, rate)]
            && t.supply.positions == s.supply.positions && t.borrow.positions == s.borrow.positions
            && t.borrow.borrowed == s.borrow.borrowed && t.borrow.inFlight == s.borrow.inFlight
            && t.borrow.collateral == s.borrow.collateral && t.statics.records == s.statics.records
            && t.distribution == 0 && t.balance == s.balance && t.withdrawing == s.withdrawing && t.paid == s.paid
  {
    hide AmountListedAt, FindAt, RemoveAt;
  }

  class LendingMarket {
    const config: Config

    var balance: nat
    var active: nat
    var incoming: seq<Incoming>
    var withdrawing: nat
    var inFlight: nat
    var borrowed: nat
    var paid: nat
    var collateral: nat
    var supplyPositions: map<Account, SupplyPosition>
    var borrowPositions: map<Account, BorrowPosition>
    var distribution: nat
    var snaps: seq<Snapshot>
    var staticYield: map<Account, StaticRecord>

    /** The state of the step machine, with its receipts and history. */
    ghost var ledger: State

    ghost predicate ShowsSupply()
      reads this
    {
      active == ledger.supply.active && incoming == ledger.supply.incoming && supplyPositions == ledger.supply.positions
    }

    ghost predicate ShowsBorrow()
      reads this
    {
      && borrowed == ledger.borrow.borrowed && inFlight == ledger.borrow.inFlight
      && collateral == ledger.borrow.collateral && borrowPositions == ledger.borrow.positions
    }

    ghost predicate ShowsCash()
      reads this
    {
      && balance == ledger.balance && withdrawing == ledger.withdrawing && paid == ledger.paid
      && distribution == ledger.distribution && snaps == ledger.snaps && staticYield == ledger.statics.records
    }

    /** The fields are the market's part of the ledger. */
    ghost predicate Valid()
      reads this
    {
      && ShowsSupply() && ShowsBorrow() && ShowsCash()
      && config.usage <= TWO_128 && snaps != [] && config.protocol in staticYield
      && Inv(ledger, config)
    }

    constructor (config: Config, start: nat, records: map<Account, StaticRecord>)
      requires ValidConfig(config) && FreshRecords(records, config)
      ensures Valid() && this.config == config && ledger == EmptyMarket(start, records)
    {
      EmptyMarketInv(start, records, config);
      hide Inv, FreshRecords;
      this.config := config;
      balance, active, incoming, withdrawing, inFlight, borrowed, paid, collateral := 0, 0, [], 0, 0, 0, 0, 0;
      supplyPositions, borrowPositions, distribution := map[], map[], 0;
      snaps, staticYield := [Snapshot(start, 0, 0, 0, 0)], records;
      ledger := EmptyMarket(start, records);
    }

    // ---- Snapshots ----

    /** Moves the entry for snapshot `at`, if there is one, to the active deposits. */
    method ActivateEntry(at: nat)
      modifies this`active, this`incoming
      ensures active == old(active) + AmountListedAt(old(incoming), at)
      ensures incoming == Unlisted(old(incoming), at)
    {
      var k := FindEntry(incoming, at);
      if k < |incoming| {
        active := active + incoming[k].amount;
        incoming := incoming[..k] + incoming[k + 1..];
      }
    }

    /** Finalizes the current snapshot. */
    method TakeSnapshot(now: nat, rate: nat) returns (ok: bool)
      requires Valid()
      modifies this
      ensures ok <==> Tick(old(ledger), now, rate).Some?
      ensures ok ==> Valid() && Tick(old(ledger), now, rate) == Some(ledger)
    {
      hide Inv, FindAt, Tick, Unlisted;
      TickFields(ledger, now, rate);
      if now < snaps[|snaps| - 1].end || |snaps| >= U32_MAX {
        return false;
      }
      ghost var t := Tick(ledger, now, rate).value;
      TickKeeps(ledger, config, now, rate);
      var k := FindEntry(incoming, |snaps|);
      var current := active + if k < |incoming| then incoming[k].amount else 0;
      assert current == active + AmountListedAt(incoming, |snaps|);
      hide AmountListedAt;
      snaps := snaps + [Snapshot(now, current, borrowed + inFlight, distribution, rate)];
      ActivateEntry(|snaps|);
      distribution, ledger := 0, t;
      return true;
    }

    // ---- Suppliers ----

    /** Adds to the position's newest entry and to the market's entry of that index. */
    method AddEntry(p: SupplyPosition, amount: nat, at: nat) returns (ok: bool, q: SupplyPosition)
      modifies this`incoming
      ensures ok <==> AddOwn(p.incoming, at, amount).Some?
      ensures ok ==> q == p.(incoming := AddOwn(p.incoming, at, amount).value)
      ensures ok ==> incoming == AddMarket(old(incoming), at, amount)
      ensures !ok ==> incoming == old(incoming)
    {
      var n := |p.incoming|;
      if n > 0 && p.incoming[n - 1].at == at {
        q := p.(incoming := p.incoming[..n - 1] + [Incoming(at, p.incoming[n - 1].amount + amount)]);
      } else if n < MAX_INCOMING {
        q := p.(incoming := p.incoming + [Incoming(at, amount)]);
      } else {
        return false, p;
      }
      var k := FindEntry(incoming, at);
      if k < |incoming| {
        incoming := incoming[k := Incoming(at, incoming[k].amount + amount)];
      } else {
        incoming := incoming + [Incoming(at, amount)];
      }
      ok := true;
    }

    /** Takes `amount` from the position's newest entries on, and from the market's. */
    method RemoveEntries(p: SupplyPosition, amount: nat) returns (ok: bool, q: SupplyPosition)
      modifies this`incoming
      ensures ok <==> RemoveIncoming(p.incoming, old(incoming), amount, 0).Some?
      ensures ok ==>
                var r := RemoveIncoming(p.incoming, old(incoming), amount, 0).value;
                q == p.(incoming := r.0) && incoming == r.1
    {
      var own := p.incoming;
      var total: nat := 0;
      q := p;
      while own != []
        invariant RemoveIncoming(own, incoming, amount, total) == RemoveIncoming(p.incoming, old(incoming), amount, 0)
        decreases |own|
      {
        var newest := own[|own| - 1];
        own, total := own[..|own| - 1], total + newest.amount;
        var k := FindEntry(incoming, newest.at);
        if k == |incoming| || incoming[k].amount < newest.amount {
          return false, p;
        }
        incoming := incoming[k := Incoming(newest.at, incoming[k].amount - newest.amount)];
        if total == amount {
          return true, p.(incoming := own);
        } else if total > amount {
          ok, q := AddEntry(p.(incoming := own), total - amount, newest.at);
          return;
        }
      }
      return true, p.(incoming := own);
    }

    /** Credits yield up to `limit` snapshots and activates what is due by then. */
    method AccumulateYield(p: SupplyPosition, limit: nat) returns (q: SupplyPosition)
      requires TimesOrdered(snaps) && WellFormed(p, |snaps|) && config.weights.total > 0
      ensures q == AccrueYield(p, snaps, config.weights, limit)
    {
      var record := CalculateYield(p, snaps, config.weights, limit);
      q := ActivateIncoming(p, record.next);
      q := q.(earned := Accumulate(p.earned, record));
    }

    /** Brings the position of `a` up to date. */
    method TouchSupplier(a: Account) returns (p: SupplyPosition)
      requires Valid() && a in supplyPositions
      modifies this
      ensures Valid() && a in supplyPositions && p == supplyPositions[a] && p.earned.next == |snaps|
      ensures TimesOrdered(old(snaps)) && config.weights.total > 0 && WellFormed(old(supplyPositions)[a], |old(snaps)|)
      ensures ledger == old(ledger).(supply := Touched(old(ledger).supply, old(snaps), config.weights, a))
    {
      hide Inv, AccrueYield, WellFormed;
      TouchedInv(ledger, config, a);
      p := AccumulateYield(supplyPositions[a], U32_MAX);
      ledger := ledger.(supply := Touched(ledger.supply, snaps, config.weights, a));
      supplyPositions := supplyPositions[a := p];
    }

    /** Crediting yield on request, up to `limit` snapshots. */
    method HarvestYield(a: Account, limit: nat) returns (ok: bool)
      requires Valid()
      modifies this
      ensures ok <==> Harvest(old(ledger), config, a, limit).Some?
      ensures ok ==> Valid() && Harvest(old(ledger), config, a, limit) == Some(ledger)
    {
      hide Inv, AccrueYield, WellFormed, Harvest;
      HarvestFields(ledger, config, a, limit);
      if a !in supplyPositions {
        return true;
      }
      if limit == 0 {
        return false;
      }
      HarvestKeeps(ledger, config, a, limit);
      var p := AccumulateYield(supplyPositions[a], limit);
      ledger := Harvest(ledger, config, a, limit).value;
      supplyPositions := supplyPositions[a := p];
      return true;
    }

    /** A deposit, for the next snapshot on. */
    method ExecuteSupply(a: Account, amount: nat, now: nat) returns (ok: bool)
      requires Valid()
      modifies this
      ensures ok <==> Supply(old(ledger), config, a, amount, now).Some?
      ensures ok ==> Valid() && Supply(old(ledger), config, a, amount, now) == Some(ledger)
    {
      hide Inv, Supply, AccrueYield, WellFormed, AddOwn, AddMarket, TotalIncoming, Contains;
      ghost var t := Supply(ledger, config, a, amount, now);
      SupplyKeeps(ledger, config, a, amount, now);
      SupplyFields(ledger, config, a, amount, now);
      var p := NewPosition(|snaps|);
      if a in supplyPositions {
        p := AccumulateYield(supplyPositions[a], U32_MAX);
      }
      if p.started.None? || p.active == 0 {
        p := p.(started := Some(now));
      }
      balance := balance + amount;
      ok, p := AddEntry(p, amount, |snaps| + 1);
      var own := SumIncoming(p.incoming);
      if !Contains(config.deposits, p.active + p.outgoing + own) {
        return false;
      }
      supplyPositions := supplyPositions[a := p];
      assert supplyPositions == t.value.supply.positions && incoming == t.value.supply.incoming;
      ledger := t.value;
    }

    /** Takes the parts of a withdrawal out of a position and out of the totals. */
    method TakeParts(plan: Plan, receipt: Withdrawal) returns (ok: bool)
      requires ShowsSupply() && receipt.account in supplyPositions
      modifies this`active, this`incoming, this`supplyPositions, this`ledger
      ensures ok <==> Remove(old(ledger).supply, plan.fromYield, plan.fromIncoming, plan.fromActive, receipt).Some?
      ensures ok ==> Remove(old(ledger).supply, plan.fromYield, plan.fromIncoming, plan.fromActive, receipt)
                     == Some(ledger.supply)
      ensures ok ==> ShowsSupply() && ledger == old(ledger).(supply := ledger.supply)
    {
      hide RemoveIncoming;
      ghost var t := Remove(ledger.supply, plan.fromYield, plan.fromIncoming, plan.fromActive, receipt);
      var p := supplyPositions[receipt.account];
      if p.earned.total < plan.fromYield {
        return false;
      }
      p := p.(outgoing := p.outgoing + plan.fromYield + plan.fromIncoming + plan.fromActive,
              earned := p.earned.(total := p.earned.total - plan.fromYield));
      ok, p := RemoveEntries(p, plan.fromIncoming);
      if !ok || p.active < plan.fromActive || active < plan.fromActive {
        return false;
      }
      supplyPositions := supplyPositions[receipt.account := p.(active := p.active - plan.fromActive)];
      active, ledger := active - plan.fromActive, ledger.(supply := t.value);
    }

    /** Takes `amount` out of the accrued position of `a`: yield first, then incoming
        and active deposits. */
    method PayOut(a: Account, amount: nat, fee: nat) returns (ok: bool)
      requires Valid() && a in supplyPositions && supplyPositions[a].earned.next == |snaps|
      requires var p := supplyPositions[a];
               amount <= TotalIncoming(p.incoming) + p.active + Min(p.earned.total, paid)
      modifies this
      ensures ok <==> SendOut(old(ledger), a, amount, fee).Some?
      ensures ok ==> Valid() && SendOut(old(ledger), a, amount, fee) == Some(ledger)
    {
      hide Inv, TotalIncoming, PlanOf, Remove, SendOut;
      ghost var s := ledger;
      SendOutKeeps(s, config, a, amount, fee);
      SendOutIs(s, a, amount, fee);
      var plan := MakePlan(supplyPositions[a], paid, amount);
      var toFees := Min(fee, amount);
      var toAccount := amount - toFees;
      ok := TakeParts(plan, Withdrawal(a, toAccount, toFees));
      if !ok || balance < toAccount || paid < plan.fromYield {
        return false;
      }
      paid, balance, withdrawing := paid - plan.fromYield, balance - toAccount, withdrawing + toAccount;
      ledger := SendOut(s, a, amount, fee).value;
    }

    /** A withdrawal, up to what the market can pay now. */
    method StartWithdrawal(a: Account, requested: nat, fee: nat) returns (ok: bool, outcome: Outcome)
      requires Valid()
      modifies this
      ensures ok <==> WithdrawStart(old(ledger), config, a, requested, fee).Some?
      ensures ok ==> Valid() && WithdrawStart(old(ledger), config, a, requested, fee) == Some(ledger)
      ensures ok ==> outcome == WithdrawOutcome(old(ledger), config, a, requested)
    {
      hide Inv, SendOut, Touched, TotalIncoming, WellFormed;
      if a !in supplyPositions {
        return true, NoPosition;
      }
      var p := TouchSupplier(a);
      var own := SumIncoming(p.incoming);
      var entitled := own + p.active + Min(p.earned.total, paid);
      if entitled == 0 {
        return true, EmptyPosition;
      }
      if active + paid < borrowed {
        return false, NoLiquidity;
      }
      var wanted := Min(requested, entitled);
      var can := Min(entitled, active + paid - borrowed + own);
      if can == 0 {
        return true, NoLiquidity;
      }
      ok := PayOut(a, Min(wanted, can), fee);
      outcome := if wanted > can then PaidInPart(wanted - can) else PaidInFull;
    }

    /** Ends the flight of a withdrawal in the position of its account. */
    method SettlePosition(receipt: Withdrawal, success: bool, ghost k: nat) returns (ok: bool)
      requires ShowsSupply() && k < |ledger.supply.pending| && ledger.supply.pending[k] == receipt
      requires receipt.account in supplyPositions
      modifies this`incoming, this`supplyPositions, this`ledger
      ensures ok <==> Settle(old(ledger).supply, |snaps|, k, success).Some?
      ensures ok ==> Settle(old(ledger).supply, |snaps|, k, success) == Some(ledger.supply)
      ensures ok ==> ShowsSupply() && ledger == old(ledger).(supply := ledger.supply)
    {
      hide AddOwn, AddMarket, Removable, RemoveAt;
      ghost var t := Settle(ledger.supply, |snaps|, k, success);
      var a, amount := receipt.account, receipt.toAccount + receipt.toFees;
      var p := supplyPositions[a];
      if p.outgoing < amount {
        return false;
      }
      p := p.(outgoing := p.outgoing - amount);
      if success {
        supplyPositions := supplyPositions[a := p];
        if Removable(p) {
          supplyPositions := supplyPositions - {a};
        }
      } else {
        ok, p := AddEntry(p, amount, |snaps| + 1);
        if !ok {
          return false;
        }
        supplyPositions := supplyPositions[a := p];
      }
      assert supplyPositions == t.value.positions;
      ledger := ledger.(supply := t.value);
      return true;
    }

    /** Settles one withdrawal in its callback. */
    method FinishWithdrawal(receipt: Withdrawal, success: bool, ghost k: nat) returns (ok: bool)
      requires Valid() && k < |ledger.supply.pending| && ledger.supply.pending[k] == receipt
      modifies this
      ensures ok <==> WithdrawEnd(old(ledger), config, k, success).Some?
      ensures ok ==> Valid() && WithdrawEnd(old(ledger), config, k, success) == Some(ledger)
    {
      hide Inv, Settle, WithdrawEnd;
      ghost var s := ledger;
      WithdrawEndKeeps(s, config, k, success);
      WithdrawEndIs(s, config, k, success);
      if receipt.account !in supplyPositions {
        Orphaned(s, config, k, success);
        ledger := WithdrawEnd(s, config, k, success).value;
        return true;
      }
      ok := SettlePosition(receipt, success, k);
      if !ok || withdrawing < receipt.toAccount {
        return false;
      }
      withdrawing := withdrawing - receipt.toAccount;
      if success {
        var r := staticYield[config.protocol];
        r := r.(earned := r.earned.(total := r.earned.total + receipt.toFees));
        staticYield := staticYield[config.protocol := r];
      } else {
        balance := balance + receipt.toAccount;
      }
      ledger := WithdrawEnd(s, config, k, success).value;
    }

    /** The callback of an execution of the withdrawal queue. */
    method FinishWithdrawals(batch: seq<Resolution>) returns (ok: bool)
      requires Valid() && multiset(ReceiptsIn(batch)) <= multiset(ledger.supply.pending)
      modifies this
      ensures Inv(old(ledger), config)
      ensures ok <==> WithdrawalsEnd(old(ledger), config, batch).Some?
      ensures ok ==> Valid() && WithdrawalsEnd(old(ledger), config, batch) == Some(ledger)
    {
      hide Inv, WithdrawEnd, FindReceipt;
      ghost var s := ledger;
      assert batch[0..] == batch;
      for i := 0 to |batch|
        invariant Valid() && multiset(ReceiptsIn(batch[i..])) <= multiset(ledger.supply.pending)
        invariant WithdrawalsEnd(ledger, config, batch[i..]) == WithdrawalsEnd(s, config, batch)
      {
        assert batch[i..][0] == batch[i] && batch[i..][1..] == batch[i + 1..];
        NextReceipt(ledger, config, batch[i..]);
        ghost var k := FindReceipt(ledger.supply.pending, batch[i].receipt);
        ok := FinishWithdrawal(batch[i].receipt, batch[i].success, k);
        if !ok {
          return false;
        }
      }
      return true;
    }

    // ---- Borrowers ----

    /** The position with its interest charged for up to `limit` snapshots. */
    method AccumulateInterest(p: BorrowPosition, limit: nat) returns (q: BorrowPosition)
      requires TimesOrdered(snaps) && Sound(p, |snaps|)
      ensures q == p.(interest := AccrueInterest(p.interest, Owed(p), snaps, limit))
    {
      var record := CalculateInterest(p.principal + p.inFlight, p.interest, snaps, limit);
      q := p.(interest := Accumulate(p.interest, record));
    }

    /** Charging interest on request. */
    method ChargeInterest(a: Account, limit: nat) returns (ok: bool)
      requires Valid()
      modifies this
      ensures ok && Valid() && ApplyInterest(old(ledger), config, a, limit) == Some(ledger)
    {
      hide Inv, AccrueInterest, Sound, ApplyInterest;
      ApplyInterestKeeps(ledger, config, a, limit);
      ApplyFields(ledger, config, a, limit);
      ghost var t := ApplyInterest(ledger, config, a, limit).value;
      if a in borrowPositions {
        var p := AccumulateInterest(borrowPositions[a], limit);
        borrowPositions := borrowPositions[a := p];
      }
      ledger := t;
      return true;
    }

    /** Fees first, then interest, then principal; the rest is to be refunded. */
    method ReduceLiability(p: BorrowPosition, amount: nat) returns (ok: bool, q: BorrowPosition, split: Reduction)
      modifies this`paid, this`borrowed
      ensures Split(p, amount, config.minimum) == Some(split)
      ensures split.toFees <= p.fees && split.toInterest <= p.interest.total && split.toPrincipal <= p.principal
      ensures ok <==> split.toPrincipal <= old(borrowed)
      ensures ok ==> q == Reduced(p, split) && paid == old(paid) + split.toFees + split.toInterest
      ensures ok ==> borrowed == old(borrowed) - split.toPrincipal
    {
      var rest := amount;
      var toFees := Min(p.fees, rest);
      rest := rest - toFees;
      q := p.(fees := p.fees - toFees);
      var toInterest := Min(p.interest.total, rest);
      rest := rest - toInterest;
      q := q.(interest := q.interest.(total := q.interest.total - toInterest));
      var remaining := Monus(p.principal, rest);
      var toPrincipal := Min(p.principal, rest);
      if 0 < remaining < config.minimum {
        toPrincipal := Monus(p.principal, config.minimum);
      }
      split := Reduction(toFees, toInterest, toPrincipal, rest - toPrincipal);
      if borrowed < toPrincipal {
        return false, q, split;
      }
      paid := paid + toFees + toInterest;
      q := q.(principal := q.principal - toPrincipal);
      borrowed := borrowed - toPrincipal;
      if q.principal == 0 {
        q := q.(started := None);
      }
      ok := true;
    }

    /** Brings the interest of `a` up to date. */
    method TouchBorrower(a: Account)
      requires Valid() && a in borrowPositions
      modifies this`borrowPositions, this`ledger
      ensures Valid() && Guard(old(ledger), config, a) == Some(ledger.borrow)
      ensures a in borrowPositions && ledger == old(ledger).(borrow := ledger.borrow)
    {
      hide Inv, AccrueInterest, Sound, Guard;
      GuardFields(ledger, config, a);
      GuardInv(ledger, config, a);
      var p := AccumulateInterest(borrowPositions[a], U32_MAX);
      ledger := ledger.(borrow := Guard(ledger, config, a).value);
      borrowPositions := borrowPositions[a := p];
    }

    /** A payment into the position of `a`. */
    method PayInto(a: Account, amount: nat) returns (ok: bool, split: Reduction)
      requires ShowsBorrow() && a in borrowPositions
      modifies this`paid, this`borrowed, this`borrowPositions, this`ledger
      ensures ok <==> Pay(old(ledger).borrow, a, amount, config.minimum).Some?
      ensures ok ==> Pay(old(ledger).borrow, a, amount, config.minimum) == Some((ledger.borrow, split))
      ensures ok ==> ShowsBorrow() && ledger == old(ledger).(borrow := ledger.borrow)
      ensures ok ==> paid == old(paid) + split.toFees + split.toInterest
    {
      hide Split, Reduced;
      ghost var t := Pay(ledger.borrow, a, amount, config.minimum);
      var p;
      ok, p, split := ReduceLiability(borrowPositions[a], amount);
      if ok {
        borrowPositions := borrowPositions[a := p];
        ledger := ledger.(borrow := t.value.0);
      }
    }

    /** A repayment; `refund` goes back to the sender. */
    method ExecuteRepay(a: Account, amount: nat, safe: bool) returns (ok: bool, refund: nat)
      requires Valid()
      modifies this
      ensures ok <==> Repay(old(ledger), config, a, amount, safe).Some?
      ensures ok ==> Valid() && Repay(old(ledger), config, a, amount, safe) == Some(ledger)
      ensures ok ==> balance == old(balance) + amount - refund
    {
      hide Inv, Guard, Pay;
      ghost var s := ledger;
      RepayKeeps(s, config, a, amount, safe);
      assert Guard(s, config, a).Some? <==> a in borrowPositions by { GuardFields(s, config, a); }
      if a !in borrowPositions {
        return true, amount;
      }
      TouchBorrower(a);
      if !safe {
        return false, amount;
      }
      balance := balance + amount;
      var split;
      ok, split := PayInto(a, amount);
      refund := split.toRefund;
      balance := balance - refund;
      ledger := Repay(s, config, a, amount, safe).value;
    }

    /** Collateral deposited, into a new position if need be. */
    method ExecuteCollateralize(a: Account, amount: nat, safe: bool) returns (ok: bool)
      requires Valid()
      modifies this
      ensures ok <==> Collateralize(old(ledger), config, a, amount, safe).Some?
      ensures ok ==> Valid() && Collateralize(old(ledger), config, a, amount, safe) == Some(ledger)
    {
      hide Inv, Collateralize, AccrueInterest, Sound;
      ghost var t := Collateralize(ledger, config, a, amount, safe);
      CollateralizeKeeps(ledger, config, a, amount, safe);
      CollateralizeFields(ledger, config, a, amount, safe);
      var p := NewBorrow(|snaps|);
      if a in borrowPositions {
        p := AccumulateInterest(borrowPositions[a], U32_MAX);
      }
      p := p.(collateral := p.collateral + amount);
      collateral := collateral + amount;
      borrowPositions := borrowPositions[a := p];
      if !safe {
        return false;
      }
      ledger := t.value;
      return true;
    }

    /** Takes collateral out of the position of `a`. */
    method ReleaseCollateral(a: Account, amount: nat) returns (ok: bool)
      requires ShowsBorrow() && a in borrowPositions
      modifies this`collateral, this`borrowPositions, this`ledger
      ensures ok <==> TakeCollateral(old(ledger).borrow, a, amount).Some?
      ensures ok ==> TakeCollateral(old(ledger).borrow, a, amount) == Some(ledger.borrow)
      ensures ok ==> ShowsBorrow() && ledger == old(ledger).(borrow := ledger.borrow) && a in borrowPositions
    {
      var p := borrowPositions[a];
      if p.collateral < amount || collateral < amount {
        return false;
      }
      ledger := ledger.(borrow := TakeCollateral(ledger.borrow, a, amount).value);
      borrowPositions := borrowPositions[a := p.(collateral := p.collateral - amount)];
      collateral := collateral - amount;
      return true;
    }

    /** Collateral on its way out; `permitted` tells whether the position stays healthy. */
    method StartCollateral(a: Account, amount: nat, permitted: bool) returns (ok: bool)
      requires Valid()
      modifies this
      ensures ok <==> CollateralStart(old(ledger), config, a, amount, permitted).Some?
      ensures ok ==> Valid() && CollateralStart(old(ledger), config, a, amount, permitted) == Some(ledger)
    {
      hide Inv, Guard, TakeCollateral;
      ghost var s := ledger;
      assert Guard(s, config, a).Some? <==> a in borrowPositions by { GuardFields(s, config, a); }
      if a !in borrowPositions || !permitted {
        return false;
      }
      TouchBorrower(a);
      ok := ReleaseCollateral(a, amount);
      if !ok {
        return false;
      }
      CollateralStartKeeps(s, config, a, amount, permitted);
      var p := borrowPositions[a];
      borrowPositions := borrowPositions[a := p.(collateralInFlight := p.collateralInFlight + amount)];
      ledger := CollateralStart(s, config, a, amount, permitted).value;
    }

    /** Ends the flight of collateral in the position of its account. */
    method SettleCollateralIn(receipt: Receipt, success: bool, ghost k: nat) returns (ok: bool)
      requires ShowsBorrow() && k < |ledger.borrow.returning| && ledger.borrow.returning[k] == receipt
      requires receipt.account in borrowPositions
      modifies this`collateral, this`borrowPositions, this`ledger
      ensures ok <==> SettleCollateral(old(ledger).borrow, k, success).Some?
      ensures ok ==> SettleCollateral(old(ledger).borrow, k, success) == Some(ledger.borrow)
      ensures ok ==> ShowsBorrow() && ledger == old(ledger).(borrow := ledger.borrow)
    {
      hide Exists, RemoveAt;
      ghost var t := SettleCollateral(ledger.borrow, k, success);
      var a, amount := receipt.account, receipt.amount;
      var p := borrowPositions[a];
      if p.collateralInFlight < amount {
        return false;
      }
      p := p.(collateralInFlight := p.collateralInFlight - amount);
      if !success {
        p := p.(collateral := p.collateral + amount);
        collateral := collateral + amount;
      }
      borrowPositions := borrowPositions[a := p];
      if success && !Exists(p) {
        borrowPositions := borrowPositions - {a};
      }
      assert borrowPositions == t.value.positions;
      ledger := ledger.(borrow := t.value);
      return true;
    }

    /** The callback of collateral sent. */
    method FinishCollateral(receipt: Receipt, success: bool, ghost k: nat) returns (ok: bool)
      requires Valid() && k < |ledger.borrow.returning| && ledger.borrow.returning[k] == receipt
      modifies this
      ensures ok <==> CollateralEnd(old(ledger), config, k, success).Some?
      ensures ok ==> Valid() && CollateralEnd(old(ledger), config, k, success) == Some(ledger)
    {
      hide Inv, Guard, SettleCollateral;
      ghost var s := ledger;
      assert Guard(s, config, receipt.account).Some? <==> receipt.account in borrowPositions by {
        GuardFields(s, config, receipt.account);
      }
      if receipt.account !in borrowPositions {
        return false;
      }
      GuardKeeps(s, config, receipt.account);
      TouchBorrower(receipt.account);
      ok := SettleCollateralIn(receipt, success, k);
      if ok {
        CollateralEndKeeps(s, config, k, success);
      }
    }

    /** A loan on its way out; `permitted` stands for the checks of health and of the
        largest loan. */
    method StartBorrow(a: Account, amount: nat, fees: nat, permitted: bool) returns (ok: bool)
      requires Valid()
      modifies this
      ensures ok <==> BorrowStart(old(ledger), config, a, amount, fees, permitted).Some?
      ensures ok ==> Valid() && BorrowStart(old(ledger), config, a, amount, fees, permitted) == Some(ledger)
    {
      hide Inv, Guard, Available, BorrowStart;
      ghost var s := ledger;
      BorrowStartIs(s, config, a, amount, fees, permitted);
      if a !in borrowPositions || amount == 0 || !permitted {
        return false;
      }
      TouchBorrower(a);
      var p := borrowPositions[a];
      if amount > Available(active, borrowed + inFlight, config.usage)
         || p.principal + p.inFlight + amount < config.minimum || balance < amount {
        return false;
      }
      BorrowStartKeeps(s, config, a, amount, fees, permitted);
      inFlight := inFlight + amount;
      borrowPositions := borrowPositions[a := p.(inFlight := p.inFlight + amount, fees := p.fees + fees)];
      distribution, balance := distribution + fees, balance - amount;
      ledger := BorrowStart(s, config, a, amount, fees, permitted).value;
      return true;
    }

    /** Ends the flight of a loan in the position of its account. */
    method SettleLoanIn(receipt: Receipt, success: bool, now: nat, ghost k: nat) returns (ok: bool)
      requires ShowsBorrow() && k < |ledger.borrow.lending| && ledger.borrow.lending[k] == receipt
      requires receipt.account in borrowPositions
      modifies this`inFlight, this`borrowed, this`borrowPositions, this`ledger
      ensures ok <==> SettleLoan(old(ledger).borrow, k, success, now).Some?
      ensures ok ==> SettleLoan(old(ledger).borrow, k, success, now) == Some(ledger.borrow)
      ensures ok ==> ShowsBorrow() && ledger == old(ledger).(borrow := ledger.borrow)
    {
      hide RemoveAt;
      ghost var t := SettleLoan(ledger.borrow, k, success, now);
      var p := borrowPositions[receipt.account];
      if inFlight < receipt.amount || p.inFlight < receipt.amount {
        return false;
      }
      inFlight := inFlight - receipt.amount;
      p := p.(inFlight := p.inFlight - receipt.amount);
      if success {
        if p.started.None? || Liability(p) == 0 {
          p := p.(started := Some(now));
        }
        p := p.(principal := p.principal + receipt.amount);
        borrowed := borrowed + receipt.amount;
      }
      borrowPositions := borrowPositions[receipt.account := p];
      ledger := ledger.(borrow := t.value);
      return true;
    }

    /** The callback of a loan. */
    method FinishBorrow(receipt: Receipt, success: bool, now: nat, ghost k: nat) returns (ok: bool)
      requires Valid() && k < |ledger.borrow.lending| && ledger.borrow.lending[k] == receipt
      modifies this
      ensures ok <==> BorrowEnd(old(ledger), config, k, success, now).Some?
      ensures ok ==> Valid() && BorrowEnd(old(ledger), config, k, success, now) == Some(ledger)
    {
      hide Inv, Guard, SettleLoan, BorrowEnd;
      ghost var s := ledger;
      BorrowEndIs(s, config, k, success, now);
      if receipt.account !in borrowPositions {
        return false;
      }
      TouchBorrower(receipt.account);
      ok := SettleLoanIn(receipt, success, now, k);
      if ok {
        BorrowEndKeeps(s, config, k, success, now);
        if !success {
          balance := balance + receipt.amount;
        }
        ledger := BorrowEnd(s, config, k, success, now).value;
      }
    }

    /** Removes a position with nothing in it. */
    method DropEmpty(a: Account)
      requires ShowsBorrow()
      modifies this`borrowPositions, this`ledger
      ensures ShowsBorrow() && ledger == old(ledger).(borrow := Dropped(old(ledger).borrow, a))
    {
      ledger := ledger.(borrow := Dropped(ledger.borrow, a));
      if a in borrowPositions && !Exists(borrowPositions[a]) {
        borrowPositions := borrowPositions - {a};
      }
    }

    /** Takes collateral out of the position of `a` and pays into it what it fetched. */
    method SeizeFrom(a: Account, seized: nat, recovered: nat) returns (ok: bool, split: Reduction)
      requires ShowsBorrow() && a in borrowPositions
      modifies this`paid, this`borrowed, this`collateral, this`borrowPositions, this`ledger
      ensures ok <==> Seize(old(ledger).borrow, a, seized, recovered, config.minimum).Some?
      ensures ok ==> Seize(old(ledger).borrow, a, seized, recovered, config.minimum) == Some((ledger.borrow, split))
      ensures ok ==> ShowsBorrow() && ledger == old(ledger).(borrow := ledger.borrow)
      ensures ok ==> paid == old(paid) + split.toFees + split.toInterest
    {
      hide TakeCollateral, Pay, Dropped;
      split := Reduction(0, 0, 0, 0);
      ok := ReleaseCollateral(a, seized);
      if ok {
        ok, split := PayInto(a, recovered);
      }
      if ok {
        DropEmpty(a);
      }
    }

    /** A liquidation of `seized` for what was sent, at a price between `least` and
        `most`; the rest of what was sent is to be refunded. */
    method ExecuteLiquidation(a: Account, offer: Offer) returns (ok: bool, refund: nat)
      requires Valid()
      modifies this
      ensures ok <==> Liquidate(old(ledger), config, a, offer).Some?
      ensures ok ==> Valid() && Liquidate(old(ledger), config, a, offer) == Some(ledger)
      ensures ok ==> balance + refund == old(balance) + offer.sent
    {
      hide Inv, Guard, Seize, Liquidate;
      ghost var s := ledger;
      LiquidateKeeps(s, config, a, offer);
      LiquidateIs(s, config, a, offer);
      if a !in borrowPositions || !offer.eligible || offer.seized > offer.liquidatable || offer.sent < offer.least {
        return false, 0;
      }
      TouchBorrower(a);
      var recovered := offer.sent;
      refund := 0;
      if offer.sent > offer.most {
        refund, recovered := offer.sent - offer.most, offer.most;
      }
      var split;
      ok, split := SeizeFrom(a, offer.seized, recovered);
      if ok {
        distribution, balance := distribution + split.toRefund, balance + recovered;
        ledger := Liquidate(s, config, a, offer).value;
      }
    }

    // ---- Static accounts ----

    /** Credits a static account up to `limit` snapshots. */
    method AccumulateStatic(a: Account, limit: nat) returns (ok: bool)
      requires Valid()
      modifies this
      ensures ok <==> StaticAccrue(old(ledger), config, a, limit).Some?
      ensures ok ==> Valid() && StaticAccrue(old(ledger), config, a, limit) == Some(ledger)
    {
      hide Inv, StaticAccrue, SoundRecord, StaticSum;
      ghost var s := ledger;
      StaticAccrueFields(s, config, a, limit);
      if a !in staticYield || staticYield[a].weight.None? {
        return false;
      }
      StaticAccrueKeeps(s, config, a, limit);
      var x := staticYield[a];
      var record := CalculateStatic(x.weight.value, config.weights.total, x.earned, snaps, limit);
      staticYield := staticYield[a := x.(earned := Accumulate(x.earned, record))];
      ledger := StaticAccrue(s, config, a, limit).value;
      return true;
    }

    /** Pays a static account at once. */
    method StartStatic(a: Account, amount: nat) returns (ok: bool)
      requires Valid()
      modifies this
      ensures ok <==> StaticStart(old(ledger), a, amount).Some?
      ensures ok ==> Valid() && StaticStart(old(ledger), a, amount) == Some(ledger)
    {
      hide Inv;
      ghost var t := StaticStart(ledger, a, amount);
      if a !in staticYield || staticYield[a].earned.total < amount || balance < amount {
        return false;
      }
      StaticStartKeeps(ledger, config, a, amount);
      var x := staticYield[a];
      staticYield := staticYield[a := x.(earned := x.earned.(total := x.earned.total - amount))];
      balance, ledger := balance - amount, t.value;
      return true;
    }

    /** The callback of a payment to a static account. */
    method FinishStatic(receipt: Receipt, success: bool, ghost k: nat) returns (ok: bool)
      requires Valid() && k < |ledger.statics.pending| && ledger.statics.pending[k] == receipt
      modifies this
      ensures ok <==> StaticEnd(old(ledger), k, success).Some?
      ensures ok ==> Valid() && StaticEnd(old(ledger), k, success) == Some(ledger)
    {
      hide Inv, StaticEnd;
      ghost var t := StaticEnd(ledger, k, success);
      StaticEndFields(ledger, config, k, success);
      if !success {
        if receipt.account !in staticYield {
          return false;
        }
        var x := staticYield[receipt.account];
        x := x.(earned := x.earned.(total := x.earned.total + receipt.amount));
        staticYield := staticYield[receipt.account := x];
        balance := balance + receipt.amount;
      }
      StaticEndKeeps(ledger, config, k, success);
      ledger := t.value;
      return true;
    }
  }

  lemma StaticEndFields(s: State, c: Config, k: nat, success: bool)
    requires Inv(s, c) && k < |s.statics.pending|
    ensures var t, receipt := StaticEnd(s, k, success), s.statics.pending[k];
            && (t.Some? <==> success || receipt.account in s.statics.records)
            && (t.Some? && success ==>
                  t.value == s.(statics := t.value.statics) && t.value.statics.records == s.statics.records)
            && (t.Some? && !success ==>
                  && t.value == s.(statics := t.value.statics, balance := s.balance + receipt.amount)
                  && t.value.statics.records == Adjusted(s.statics, receipt.account,
                       s.statics.records[receipt.account].earned.total + receipt.amount))
  {
    hide SupplyInv, BorrowInv, StaticInv, Conserved, Funded, RemoveAt, Adjusted;
    SettleWithdrawalKeeps(s.statics, s.snaps, c.weights, k, success);
  }

  lemma StaticAccrueFields(s: State, c: Config, a: Account, limit: nat)
    requires Inv(s, c)
    ensures StaticAccrue(s, c, a, limit).Some? <==> a in s.statics.records && s.statics.records[a].weight.Some?
    ensures StaticAccrue(s, c, a, limit).Some? ==>
              && TimesOrdered(s.snaps) && c.weights.total > 0 && SoundRecord(s.statics.records[a], |s.snaps|)
              && var r, x := StaticAccrue(s, c, a, limit).value, s.statics.records[a];
                 var n := Reach(x.earned.next, limit, |s.snaps|);
                 && x.earned.next >= 1 && n <= |s.snaps| && x.earned.next <= n && x.earned.fraction < TWO_128
                 && r == s.(statics := r.statics)
                 && var sum := StaticSum(x.weight.value, c.weights.total, s.snaps, x.earned.next, n);
                    r.statics.records == s.statics.records[a := x.(earned := Accumulate(x.earned, RecordOf(sum, n)))]
  {
    hide SupplyInv, BorrowInv, StaticInv, Conserved, Funded, AddOwed, AddStatic, StaticSum;
    if a in s.statics.records {
      AccrueStaticKeeps(s.statics, s.snaps, c.weights, a, limit);
    }
  }

  lemma ApplyFields(s: State, c: Config, a: Account, limit: nat)
    requires Inv(s, c)
    ensures a !in s.borrow.positions ==> ApplyInterest(s, c, a, limit) == Some(s)
    ensures a in s.borrow.positions ==>
              && TimesOrdered(s.snaps) && Sound(s.borrow.positions[a], |s.snaps|)
              && ApplyInterest(s, c, a, limit).Some?
              && var r, p := ApplyInterest(s, c, a, limit).value, s.borrow.positions[a];
                 && r.borrow.positions
                    == s.borrow.positions[a := p.(interest := AccrueInterest(p.interest, Owed(p), s.snaps, limit))]
                 && r == s.(borrow := r.borrow) && SameTotals(r.borrow, s.borrow)
  {
    hide SupplyInv, BorrowInv, StaticInv, Conserved, Funded, AccrueInterest, AddOwed, AddCharged, Sound;
    if a in s.borrow.positions {
      AccrueBorrowKeeps(s.borrow, s.snaps, a, limit);
    }
  }

  lemma BorrowStartIs(s: State, c: Config, a: Account, amount: nat, fees: nat, permitted: bool)
    requires Inv(s, c) && c.usage <= TWO_128
    ensures Guard(s, c, a).Some? <==> a in s.borrow.positions
    ensures var t := BorrowStart(s, c, a, amount, fees, permitted);
            && (t.Some? ==> a in s.borrow.positions && amount > 0 && permitted)
            && (a in s.borrow.positions && amount > 0 && permitted ==>
                  var b := Guard(s, c, a).value;
                  && a in b.positions
                  && (t.Some? <==> !(amount > Available(s.supply.active, s.borrow.borrowed + s.borrow.inFlight, c.usage)
                                     || Owed(b.positions[a]) + amount < c.minimum || s.balance < amount))
                  && (t.Some? ==> t.value == s.(borrow := Lend(b, a, amount, fees), balance := s.balance - amount,
                                                distribution := s.distribution + fees)))
  {
    hide Inv, Guard, Available, Lend;
    GuardFields(s, c, a);
    if a in s.borrow.positions {
      GuardKeeps(s, c, a);
    }
  }

  lemma BorrowEndIs(s: State, c: Config, k: nat, success: bool, now: nat)
    requires Inv(s, c) && k < |s.borrow.lending|
    ensures var t, receipt := BorrowEnd(s, c, k, success, now), s.borrow.lending[k];
            && (Guard(s, c, receipt.account).Some? <==> receipt.account in s.borrow.positions)
            && (t.Some? ==> receipt.account in s.borrow.positions)
            && (receipt.account in s.borrow.positions ==>
                  var b := Guard(s, c, receipt.account).value;
                  && b.lending == s.borrow.lending
                  && var r := SettleLoan(b, k, success, now);
                     && (t.Some? <==> r.Some?)
                     && (t.Some? ==>
                           t.value == s.(borrow := r.value,
                                         balance := s.balance + if success then 0 else receipt.amount)))
  {
    hide Inv, Guard, SettleLoan;
    GuardFields(s, c, s.borrow.lending[k].account);
    if s.borrow.lending[k].account in s.borrow.positions {
      GuardKeeps(s, c, s.borrow.lending[k].account);
    }
  }

  lemma LiquidateIs(s: State, c: Config, a: Account, o: Offer)
    requires Inv(s, c)
    ensures Guard(s, c, a).Some? <==> a in s.borrow.positions
    ensures var t := Liquidate(s, c, a, o);
            && (t.Some? ==> a in s.borrow.positions && Acceptable(o))
            && (a in s.borrow.positions && Acceptable(o) ==>
                  && a in Guard(s, c, a).value.positions
                  && var r := Seize(Guard(s, c, a).value, a, o.seized, Recovered(o), c.minimum);
                     && (t.Some? <==> r.Some?)
                     && (t.Some? ==>
                           var split := r.value.1;
                           t.value == s.(borrow := r.value.0, balance := s.balance + Recovered(o),
                                         paid := s.paid + split.toFees + split.toInterest,
                                         feesPaid := s.feesPaid + split.toFees, surplus := s.surplus + split.toRefund,
                                         distribution := s.distribution + split.toRefund)))
  {
    hide Inv, Guard, Seize, Acceptable, Recovered;
    GuardCollateral(s, c, a);
  }

  lemma GuardInv(s: State, c: Config, a: Account)
    requires Inv(s, c) && Guard(s, c, a).Some?
    ensures Inv(s.(borrow := Guard(s, c, a).value), c)
  {
    hide SupplyInv, BorrowInv, StaticInv, Guard;
    GuardKeeps(s, c, a);
  }

  lemma SendOutIs(s: State, a: Account, amount: nat, fee: nat)
    requires a in s.supply.positions
    ensures var plan := PlanOf(s.supply.positions[a], s.paid, amount);
            var toFees := Min(fee, amount);
            var r := Remove(s.supply, plan.fromYield, plan.fromIncoming, plan.fromActive,
                            Withdrawal(a, amount - toFees, toFees));
            && (SendOut(s, a, amount, fee).Some? <==>
                r.Some? && amount - toFees <= s.balance && plan.fromYield <= s.paid)
            && (SendOut(s, a, amount, fee).Some? ==>
                  SendOut(s, a, amount, fee).value
                  == s.(supply := r.value, paid := s.paid - plan.fromYield, balance := s.balance - (amount - toFees),
                        withdrawing := s.withdrawing + (amount - toFees)))
  {
    hide Remove, PlanOf;
  }

  lemma CollateralizeFields(s: State, c: Config, a: Account, amount: nat, safe: bool)
    requires Inv(s, c)
    ensures TimesOrdered(s.snaps) && (a in s.borrow.positions ==> Sound(s.borrow.positions[a], |s.snaps|))
    ensures safe ==>
            && Collateralize(s, c, a, amount, safe).Some?
            && var r := Collateralize(s, c, a, amount, safe).value;
               var p := if a in s.borrow.positions then UpToDate(s, a) else NewBorrow(|s.snaps|);
               && r.borrow.positions == s.borrow.positions[a := p.(collateral := p.collateral + amount)]
               && r.borrow.collateral == s.borrow.collateral + amount
               && r.borrow.borrowed == s.borrow.borrowed && r.borrow.inFlight == s.borrow.inFlight
               && r == s.(borrow := r.borrow)
  {
    hide SupplyInv, BorrowInv, StaticInv, Conserved, Funded, AccrueInterest, AddOwed, AddCharged, Sound;
    ChargedKeeps(s.borrow, s.snaps, a);
  }

  lemma WithdrawEndIs(s: State, c: Config, k: nat, success: bool)
    requires k < |s.supply.pending| && c.protocol in s.statics.records
    ensures var receipt, r := s.supply.pending[k], Settle(s.supply, |s.snaps|, k, success);
            && (WithdrawEnd(s, c, k, success).Some? <==> r.Some? && receipt.toAccount <= s.withdrawing)
            && (WithdrawEnd(s, c, k, success).Some? ==>
                  WithdrawEnd(s, c, k, success).value
                  == s.(supply := r.value, withdrawing := s.withdrawing - receipt.toAccount,
                        statics := if success then Receive(s.statics, c.protocol, receipt.toFees) else s.statics,
                        balance := s.balance + if success then 0 else receipt.toAccount))
  {
    hide Settle, Receive;
  }

  /** The receipt the callback comes to next is in flight, and the others stay so. */
  lemma NextReceipt(s: State, c: Config, batch: seq<Resolution>)
    requires Inv(s, c) && batch != [] && multiset(ReceiptsIn(batch)) <= multiset(s.supply.pending)
    ensures c.protocol in s.statics.records
    ensures var k := FindReceipt(s.supply.pending, batch[0].receipt);
            && k < |s.supply.pending| && s.supply.pending[k] == batch[0].receipt
            && Resolve(s, c, batch[0]) == WithdrawEnd(s, c, k, batch[0].success)
            && (Resolve(s, c, batch[0]).Some? ==>
                  multiset(ReceiptsIn(batch[1..])) <= multiset(Resolve(s, c, batch[0]).value.supply.pending))
  {
    hide Inv, WithdrawEnd, FindReceipt, RemoveAt, ReceiptsIn;
    assert c.protocol in s.statics.records by { Protocol(s, c); }
    ReceiptsInFirst(batch);
    var k := FindReceipt(s.supply.pending, batch[0].receipt);
    assert batch[0].receipt in multiset(s.supply.pending);
    if Resolve(s, c, batch[0]).Some? {
      WithdrawEndPending(s, c, k, batch[0].success);
    }
    RemovedReceipt(s.supply.pending, k);
    StillIn(multiset(RemoveAt(s.supply.pending, k)), multiset(ReceiptsIn(batch[1..])), batch[0].receipt);
  }

  lemma StillIn(left: multiset<Withdrawal>, others: multiset<Withdrawal>, x: Withdrawal)
    requires multiset{x} + others <= left + multiset{x}
    ensures others <= left
  {
    forall y | y in others ensures others[y] <= left[y] {
      assert (multiset{x} + others)[y] <= (left + multiset{x})[y];
    }
  }

  lemma Protocol(s: State, c: Config)
    requires Inv(s, c)
    ensures c.protocol in s.statics.records
  {}

  lemma ReceiptsInFirst(batch: seq<Resolution>)
    requires batch != []
    ensures multiset(ReceiptsIn(batch)) == multiset{batch[0].receipt} + multiset(ReceiptsIn(batch[1..]))
  {}

  lemma WithdrawEndPending(s: State, c: Config, k: nat, success: bool)
    requires k < |s.supply.pending| && c.protocol in s.statics.records && WithdrawEnd(s, c, k, success).Some?
    ensures WithdrawEnd(s, c, k, success).value.supply.pending == RemoveAt(s.supply.pending, k)
  {
    hide Settle, Receive, RemoveAt;
    SettledPending(s.supply, |s.snaps|, k, success);
  }

  /** Without a position the callback has nothing to move. */
  lemma Orphaned(s: State, c: Config, k: nat, success: bool)
    requires Inv(s, c) && k < |s.supply.pending| && s.supply.pending[k].account !in s.supply.positions
    requires WithdrawEnd(s, c, k, success).Some?
    ensures var t := WithdrawEnd(s, c, k, success).value;
            && t.supply.positions == s.supply.positions && t.supply.active == s.supply.active
            && t.supply.incoming == s.supply.incoming && t.statics.records == s.statics.records
            && t == s.(supply := t.supply, statics := t.statics)
  {
    SettleOrphan(s.supply, s.snaps, c.weights, k, success);
    hide SupplyInv, BorrowInv, StaticInv, Conserved, Funded, RemoveAt;
    var r := s.statics.records[c.protocol];
    assert s.statics.records[c.protocol := r] == s.statics.records;
  }

  lemma HarvestFields(s: State, c: Config, a: Account, limit: nat)
    requires Inv(s, c)
    ensures a !in s.supply.positions ==> Harvest(s, c, a, limit) == Some(s)
    ensures a in s.supply.positions && limit == 0 ==> Harvest(s, c, a, limit).None?
    ensures a in s.supply.positions && limit > 0 ==>
              && TimesOrdered(s.snaps) && c.weights.total > 0 && WellFormed(s.supply.positions[a], |s.snaps|)
              && Harvest(s, c, a, limit).Some?
              && var r := Harvest(s, c, a, limit).value;
                 && r.supply.positions
                    == s.supply.positions[a := AccrueYield(s.supply.positions[a], s.snaps, c.weights, limit)]
                 && r == s.(supply := r.supply) && r.supply.active == s.supply.active
                 && r.supply.incoming == s.supply.incoming
  {
    hide SupplyInv, BorrowInv, StaticInv, Conserved, Funded, AccrueYield, AddUsed, AddCredited, WellFormed;
    if a in s.supply.positions {
      AccrueSupplyKeeps(s.supply, s.snaps, c.weights, a, limit);
    }
  }

  /** What a deposit does to the market's fields. */
  lemma SupplyFields(s: State, c: Config, a: Account, amount: nat, now: nat)
    requires Inv(s, c)
    ensures a in s.supply.positions ==> WellFormed(s.supply.positions[a], |s.snaps|)
    ensures TimesOrdered(s.snaps) && c.weights.total > 0
    ensures var t := Supply(s, c, a, amount, now);
            var p := if a in s.supply.positions then AccrueYield(s.supply.positions[a], s.snaps, c.weights, U32_MAX)
                     else NewPosition(|s.snaps|);
            var q := p.(started := if p.started.None? || p.active == 0 then Some(now) else p.started);
            var own := AddOwn(q.incoming, |s.snaps| + 1, amount);
            && own.Some?
            && (t.Some? <==> Contains(c.deposits, DepositTotal(q.(incoming := own.value))))
            && (t.Some? ==>
                  var r := t.value;
                  && r.supply.positions == s.supply.positions[a := q.(incoming := own.value)]
                  && r.supply.incoming == AddMarket(s.supply.incoming, |s.snaps| + 1, amount)
                  && r.supply.active == s.supply.active
                  && r == s.(supply := r.supply, balance := s.balance + amount))
  {
    hide SupplyInv, BorrowInv, StaticInv, Conserved, Funded;
    hide AccrueYield, AddOwn, AddMarket, WellFormed, AddUsed, AddCredited, DepositTotal, Contains;
    TouchedInv(s, c, a);
    var t := Touched(s.supply, s.snaps, c.weights, a);
    DepositKeeps(t, s.snaps, c.weights, a, amount, now);
  }
}
