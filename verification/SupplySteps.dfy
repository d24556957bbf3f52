/**
 The operations on a supply position and what each keeps: deposits, withdrawals
 with their two-phase settlement, yield accrual, and the finalizing of a snapshot.
 `None` stands for the source's panics.
 */
module SupplySteps {
  import opened Arith
  import opened Sums
  import opened Accrual
  import opened SupplyLedger

  function NewPosition(count: nat): (p: SupplyPosition) {
    SupplyPosition(None, 0, [], 0, Accumulator(0, 0, count))
  }

  /** The position after the accrual every guarded operation starts with. */
  function Touched(s: SupplySide, snaps: seq<Snapshot>, w: Weights, a: Account): (r: SupplySide)
    requires TimesOrdered(snaps) && w.total > 0 && (a in s.positions ==> WellFormed(s.positions[a], |snaps|))
  {
    if a in s.positions then AccrueSupply(s, snaps, w, a, U32_MAX) else s
  }

  function PositionOf(s: SupplySide, a: Account, count: nat): (p: SupplyPosition) {
    if a in s.positions then s.positions[a] else NewPosition(count)
  }

  /** What the invariant says about one account. */
  lemma Parts(s: SupplySide, snaps: seq<Snapshot>, w: Weights, a: Account)
    requires SupplyInv(s, snaps, w)
    ensures |snaps| >= 1 && MarketIncoming(s.incoming, |snaps|) && OutgoingPending(s.positions, s.pending)
    ensures Part(s.positions, Outgoing(), a) == PendingOf(s.pending, a)
    ensures a in s.positions ==>
              WellFormed(s.positions[a], |snaps|) && ListedIn(s.positions[a].incoming, s.incoming, |snaps|)
  {
    hide History, SumBy, WellFormed, ListedIn, PendingOf, MarketIncoming, Totals;
    hide TotalIncoming;
    assert MarketIncoming(s.incoming, |snaps|) by { MarketPart(s, |snaps|); }
  }

  lemma MarketPart(s: SupplySide, count: nat)
    requires Totals(s, count)
    ensures MarketIncoming(s.incoming, count)
  {}

  lemma TouchedKeeps(s: SupplySide, snaps: seq<Snapshot>, w: Weights, a: Account)
    requires SupplyInv(s, snaps, w)
    ensures a in s.positions ==> WellFormed(s.positions[a], |snaps|)
    ensures var t := Touched(s, snaps, w, a);
            && SupplyInv(t, snaps, w) && SumBy(t.positions, Outgoing()) == SumBy(s.positions, Outgoing())
            && t.active == s.active && t.incoming == s.incoming && t.pending == s.pending && t.taken == s.taken
            && t.positions.Keys == s.positions.Keys
            && (forall b :: b in s.positions && b != a ==> t.positions[b] == s.positions[b])
            && (a in t.positions ==> t.positions[a].earned.next == |snaps|)
  {
    if a in s.positions {
      AccrueSupplyKeeps(s, snaps, w, a, U32_MAX);
      AccruedPosition(s.positions[a], snaps, w, U32_MAX);
      hide SupplyInv, AccrueYield, SumBy, WellFormed, AddUsed, AddCredited;
    }
  }

  /** Accrual moves deposits from incoming to active and leaves their total. */
  lemma {:induction false} ActivationKeepsTotal(incoming: seq<Incoming>, i: nat)
    ensures ActivatedBy(incoming, i) + TotalIncoming(StillIncoming(incoming, i)) == TotalIncoming(incoming)
    decreases |incoming|
  {
    if incoming != [] && incoming[0].at <= i {
      ActivationKeepsTotal(incoming[1..], i);
    }
  }

  lemma AccruedDeposit(p: SupplyPosition, snaps: seq<Snapshot>, w: Weights, limit: nat)
    requires TimesOrdered(snaps) && w.total > 0 && WellFormed(p, |snaps|)
    ensures DepositTotal(AccrueYield(p, snaps, w, limit)) == DepositTotal(p)
  {
    ActivationKeepsTotal(p.incoming, Reach(p.earned.next, limit, |snaps|));
    hide ActivatedBy, StillIncoming, TotalIncoming, Accumulate, YieldSum;
  }

  lemma TouchedDeposit(s: SupplySide, snaps: seq<Snapshot>, w: Weights, a: Account)
    requires TimesOrdered(snaps) && w.total > 0 && (a in s.positions ==> WellFormed(s.positions[a], |snaps|))
    ensures var t := Touched(s, snaps, w, a);
            && (a in s.positions <==> a in t.positions)
            && (a in s.positions ==> DepositTotal(t.positions[a]) == DepositTotal(s.positions[a]))
  {
    if a in s.positions {
      AccruedDeposit(s.positions[a], snaps, w, U32_MAX);
      hide DepositTotal, AccrueYield, AddUsed, AddCredited, WellFormed;
    }
  }

  /** Accrual does nothing to a position that is up to date. */
  lemma TouchedTwice(s: SupplySide, snaps: seq<Snapshot>, w: Weights, a: Account)
    requires TimesOrdered(snaps) && w.total > 0
    requires a in s.positions && WellFormed(s.positions[a], |snaps|) && s.positions[a].earned.next == |snaps|
    ensures Touched(s, snaps, w, a) == s
  {
    var p, t := s.positions[a], Touched(s, snaps, w, a);
    NoneActivated(p.incoming, |snaps|);
    assert AccrueYield(p, snaps, w, U32_MAX) == p;
    hide AccrueYield;
    assert t.positions == s.positions && t.used == s.used && t.credited == s.credited;
  }

  // ---- Deposit ----

  /** A position that holds as many incoming entries as it may, all for snapshots
      already finalized. */
  predicate Full(p: SupplyPosition, count: nat) {
    |p.incoming| == MAX_INCOMING && p.incoming[MAX_INCOMING - 1].at <= count
  }

  function AddIncoming(s: SupplySide, count: nat, a: Account, amount: nat): (r: Option<SupplySide>)
    requires a in s.positions
  {
    var own := AddOwn(s.positions[a].incoming, count + 1, amount);
    if own.None? then None
    else Some(s.(positions := s.positions[a := s.positions[a].(incoming := own.value)],
                 incoming := AddMarket(s.incoming, count + 1, amount)))
  }

  lemma AddMarketSome(incoming: seq<Incoming>, at: nat, amount: nat)
    ensures AddMarket(incoming, at, amount) != []
  {}

  lemma AddIncomingBalanced(s: SupplySide, count: nat, a: Account, amount: nat)
    requires count >= 1 && a in s.positions && WellFormed(s.positions[a], count)
    requires MarketIncoming(s.incoming, count) && Part(s.positions, Outgoing(), a) == PendingOf(s.pending, a)
    ensures AddIncoming(s, count, a, amount).None? <==> Full(s.positions[a], count)
    ensures AddIncoming(s, count, a, amount).Some? ==>
              var t := AddIncoming(s, count, a, amount).value;
              && Balanced(s, t, count, a, t.positions[a])
              && TotalIncoming(t.incoming) == TotalIncoming(s.incoming) + amount
              && DepositTotal(t.positions[a]) == DepositTotal(s.positions[a]) + amount
  {
    var p := s.positions[a];
    hide PendingOf, PendingTotal, TotalIncoming, IncomingAt, ActivatedBy, AddMarket, SumBy;
    assert IncomingShape(p.incoming, p.earned.next, count);
    AddOwnEffect(p.incoming, p.earned.next, count, amount, count);
    hide AddOwn;
    if AddIncoming(s, count, a, amount).Some? {
      var q := AddIncoming(s, count, a, amount).value.positions[a];
      forall j: nat | j <= count ensures Open(j)(q) == Open(j)(p) {
        AddOwnEffect(p.incoming, p.earned.next, count, amount, j);
      }
      AddMarketEffect(s.incoming, count, amount);
      AddMarketSome(s.incoming, count + 1, amount);
      hide Open, Ordered;
    }
  }

  lemma AddIncomingKeeps(s: SupplySide, snaps: seq<Snapshot>, w: Weights, a: Account, amount: nat)
    requires SupplyInv(s, snaps, w) && a in s.positions
    ensures AddIncoming(s, |snaps|, a, amount).None? <==> Full(s.positions[a], |snaps|)
    ensures AddIncoming(s, |snaps|, a, amount).Some? ==>
              var t := AddIncoming(s, |snaps|, a, amount).value;
              && SupplyInv(t, snaps, w)
              && TotalIncoming(t.incoming) == TotalIncoming(s.incoming) + amount
              && SumBy(t.positions, Outgoing()) == SumBy(s.positions, Outgoing())
              && DepositTotal(t.positions[a]) == DepositTotal(s.positions[a]) + amount
  {
    hide SupplyInv, Balanced, SumBy, TotalIncoming, AddOwn, AddMarket, WellFormed, PendingOf, DepositTotal, Full;
    hide ListedIn, MarketIncoming, OutgoingPending;
    Parts(s, snaps, w, a);
    AddIncomingBalanced(s, |snaps|, a, amount);
    if AddIncoming(s, |snaps|, a, amount).Some? {
      var t := AddIncoming(s, |snaps|, a, amount).value;
      ReplaceKeeps(s, t, snaps, w, a, t.positions[a]);
    }
  }

  /** The position, new if need be, with its starting time. */
  function Started(s: SupplySide, count: nat, a: Account, now: nat): (r: SupplySide) {
    var p := PositionOf(s, a, count);
    s.(positions := s.positions[a := p.(started := if p.started.None? || p.active == 0 then Some(now) else p.started)])
  }

  lemma StartedKeeps(s: SupplySide, snaps: seq<Snapshot>, w: Weights, a: Account, now: nat)
    requires SupplyInv(s, snaps, w)
    ensures var t := Started(s, |snaps|, a, now);
            && SupplyInv(t, snaps, w) && SumBy(t.positions, Outgoing()) == SumBy(s.positions, Outgoing())
            && DepositTotal(t.positions[a]) == DepositTotal(PositionOf(s, a, |snaps|))
  {
    Parts(s, snaps, w, a);
    var t, count := Started(s, |snaps|, a, now), |snaps|;
    assert Balanced(s, t, count, a, t.positions[a]) && t.positions[a].outgoing == Part(s.positions, Outgoing(), a) by {
      hide SupplyInv, SumBy, PendingOf, PendingTotal, TotalIncoming, IncomingAt, ActivatedBy, Ordered;
      NewHasNothing(count);
    }
    hide SupplyInv, Balanced, SumBy;
    ReplaceKeeps(s, t, snaps, w, a, t.positions[a]);
  }

  lemma NewHasNothing(count: nat)
    ensures var p := NewPosition(count);
            && (forall j :: Open(j)(p) == 0 && Due(j)(p) == 0) && DepositTotal(p) == 0 && Ordered(p.incoming, count)
  {}

  function Deposit(s: SupplySide, count: nat, a: Account, amount: nat, now: nat): (r: Option<SupplySide>) {
    AddIncoming(Started(s, count, a, now), count, a, amount)
  }

  /** A deposit never meets the limit on incoming entries, because the position was
      accrued just before. */
  lemma DepositKeeps(s: SupplySide, snaps: seq<Snapshot>, w: Weights, a: Account, amount: nat, now: nat)
    requires SupplyInv(s, snaps, w)
    requires a in s.positions ==> s.positions[a].earned.next == |snaps|
    ensures Deposit(s, |snaps|, a, amount, now).Some?
    ensures var t := Deposit(s, |snaps|, a, amount, now).value;
            && SupplyInv(t, snaps, w) && t.active == s.active && t.pending == s.pending && t.taken == s.taken
            && TotalIncoming(t.incoming) == TotalIncoming(s.incoming) + amount
            && SumBy(t.positions, Outgoing()) == SumBy(s.positions, Outgoing())
            && DepositTotal(t.positions[a]) == DepositTotal(PositionOf(s, a, |snaps|)) + amount
            && t.positions[a].earned == PositionOf(s, a, |snaps|).earned
  {
    hide SupplyInv, SumBy, TotalIncoming, AddOwn, AddMarket, WellFormed, DepositTotal;
    hide ListedIn, MarketIncoming, OutgoingPending;
    var t := Started(s, |snaps|, a, now);
    StartedKeeps(s, snaps, w, a, now);
    Parts(t, snaps, w, a);
    assert !Full(t.positions[a], |snaps|) by { AccruedNotFull(t.positions[a], |snaps|); }
    hide Full;
    AddIncomingKeeps(t, snaps, w, a, amount);
  }

  lemma AccruedNotFull(p: SupplyPosition, count: nat)
    requires WellFormed(p, count) && p.earned.next == count
    ensures !Full(p, count)
  {
    assert IncomingShape(p.incoming, count, count);
    AccruedShape(p.incoming, count);
  }

  // ---- Withdrawal ----

  /** Takes `fromYield`, `fromIncoming` and `fromActive` out of the position of the
      receipt's account and puts them in flight. */
  function Remove(s: SupplySide, fromYield: nat, fromIncoming: nat, fromActive: nat, receipt: Withdrawal)
    : (r: Option<SupplySide>)
    requires receipt.account in s.positions
  {
    var p := s.positions[receipt.account];
    var left := RemoveIncoming(p.incoming, s.incoming, fromIncoming, 0);
    if left.None? || p.earned.total < fromYield || p.active < fromActive || s.active < fromActive then None
    else
      var q := p.(active := p.active - fromActive, incoming := left.value.0,
                  outgoing := p.outgoing + fromYield + fromIncoming + fromActive,
                  earned := p.earned.(total := p.earned.total - fromYield));
      Some(s.(positions := s.positions[receipt.account := q], active := s.active - fromActive,
              incoming := left.value.1, pending := s.pending + [receipt], taken := s.taken + fromYield))
  }

  /** The market's totals cover what one accrued position has in them. */
  lemma PositionWithinTotals(s: SupplySide, snaps: seq<Snapshot>, w: Weights, a: Account)
    requires SupplyInv(s, snaps, w) && a in s.positions && s.positions[a].earned.next == |snaps|
    ensures IncomingShape(s.positions[a].incoming, |snaps|, |snaps|)
    ensures s.positions[a].active <= s.active
    ensures TotalIncoming(s.positions[a].incoming) <= TotalIncoming(s.incoming)
    ensures Open(|snaps|)(s.positions[a]) == s.positions[a].active
    ensures Due(|snaps| + 1)(s.positions[a]) == TotalIncoming(s.positions[a].incoming)
  {
    var p, count := s.positions[a], |snaps|;
    AccruedShape(p.incoming, count);
    SumAtLeast(s.positions, Open(count), a);
    SumAtLeast(s.positions, Due(count + 1), a);
    hide SumBy, ActivatedBy, IncomingAt, TotalIncoming, History, OutgoingPending;
  }

  lemma RemoveKeeps(s: SupplySide, snaps: seq<Snapshot>, w: Weights,
                    fromYield: nat, fromIncoming: nat, fromActive: nat, receipt: Withdrawal)
    requires SupplyInv(s, snaps, w)
    requires receipt.account in s.positions && s.positions[receipt.account].earned.next == |snaps|
    requires var p := s.positions[receipt.account];
             && fromYield <= p.earned.total && fromIncoming <= TotalIncoming(p.incoming) && fromActive <= p.active
    requires AmountOf(receipt) == fromYield + fromIncoming + fromActive
    ensures Remove(s, fromYield, fromIncoming, fromActive, receipt).Some?
    ensures var t := Remove(s, fromYield, fromIncoming, fromActive, receipt).value;
            && SupplyInv(t, snaps, w)
            && TotalIncoming(t.incoming) == TotalIncoming(s.incoming) - fromIncoming
            && t.active == s.active - fromActive
            && SumBy(t.positions, Outgoing()) == SumBy(s.positions, Outgoing()) + AmountOf(receipt)
            && DepositTotal(t.positions[receipt.account]) + t.positions[receipt.account].earned.total
               == DepositTotal(s.positions[receipt.account]) + s.positions[receipt.account].earned.total
  {
    hide SupplyInv, SumBy, TotalIncoming, RemoveIncoming, PendingOf, PendingTotal;
    var a, count := receipt.account, |snaps|;
    var p := s.positions[a];
    PositionWithinTotals(s, snaps, w, a);
    Parts(s, snaps, w, a);
    RemoveIncomingEffect(p.incoming, s.incoming, count, fromIncoming);
    var t := Remove(s, fromYield, fromIncoming, fromActive, receipt).value;
    var q := t.positions[a];
    AccruedShape(q.incoming, count);
    forall b ensures PendingOf(t.pending, b) == if b == a then q.outgoing else PendingOf(s.pending, b) {
      PendingAppend(s.pending, receipt, b);
      assert Part(s.positions, Outgoing(), a) == PendingOf(s.pending, a);
    }
    PendingAppend(s.pending, receipt, a);
    assert Balanced(s, t, count, a, q) by { hide IncomingAt, ActivatedBy, AmountOf; }
    ReplaceKeeps(s, t, snaps, w, a, q);
  }

  /** Drops a position with nothing left in it. */
  function Cleanup(s: SupplySide, a: Account): (r: SupplySide) {
    if a in s.positions && Removable(s.positions[a]) then Without(s, a) else s
  }

  lemma CleanupKeeps(s: SupplySide, snaps: seq<Snapshot>, w: Weights, a: Account)
    requires SupplyInv(s, snaps, w)
    ensures var t := Cleanup(s, a);
            && SupplyInv(t, snaps, w) && SumBy(t.positions, Outgoing()) == SumBy(s.positions, Outgoing())
            && t.active == s.active && t.incoming == s.incoming && t.pending == s.pending
  {
    hide SupplyInv, SumBy, Removable;
    if a in s.positions && Removable(s.positions[a]) {
      DeleteKeeps(s, snaps, w, a);
    }
  }

  /** Ends the flight of a withdrawal. */
  function Released(s: SupplySide, k: nat): (r: SupplySide)
    requires k < |s.pending| && s.pending[k].account in s.positions
    requires AmountOf(s.pending[k]) <= s.positions[s.pending[k].account].outgoing
  {
    var a, p := s.pending[k].account, s.positions[s.pending[k].account];
    s.(pending := RemoveAt(s.pending, k),
       positions := s.positions[a := p.(outgoing := p.outgoing - AmountOf(s.pending[k]))])
  }

  /** The outcome of a withdrawal in flight. A failed transfer puts the whole amount
      back as an incoming deposit. */
  function Settle(s: SupplySide, count: nat, k: nat, success: bool): (r: Option<SupplySide>)
    requires k < |s.pending|
  {
    var a, amount := s.pending[k].account, AmountOf(s.pending[k]);
    if a !in s.positions then Some(s.(pending := RemoveAt(s.pending, k)))
    else if s.positions[a].outgoing < amount then None
    else if success then Some(Cleanup(Released(s, k), a))
    else AddIncoming(Released(s, k), count, a, amount)
  }

  ghost predicate SettleEffect(s: SupplySide, t: SupplySide, receipt: Withdrawal, success: bool) {
    && t.active == s.active
    && SumBy(t.positions, Outgoing()) + AmountOf(receipt) == SumBy(s.positions, Outgoing())
    && TotalIncoming(t.incoming) == TotalIncoming(s.incoming) + (if success then 0 else AmountOf(receipt))
  }

  lemma SettlePending(s: SupplySide, k: nat)
    requires k < |s.pending| && OutgoingPending(s.positions, s.pending)
    ensures var receipt, rest := s.pending[k], RemoveAt(s.pending, k);
            && AmountOf(receipt) <= Part(s.positions, Outgoing(), receipt.account)
            && PendingTotal(rest) + AmountOf(receipt) == PendingTotal(s.pending)
            && forall b :: PendingOf(rest, b)
                           == PendingOf(s.pending, b) - if b == receipt.account then AmountOf(receipt) else 0
  {
    var receipt, rest := s.pending[k], RemoveAt(s.pending, k);
    forall b ensures PendingOf(rest, b)
                     == PendingOf(s.pending, b) - if b == receipt.account then AmountOf(receipt) else 0 {
      PendingRemove(s.pending, k, b);
    }
    PendingRemove(s.pending, k, receipt.account);
    assert Part(s.positions, Outgoing(), receipt.account) == PendingOf(s.pending, receipt.account);
    hide SumBy, PendingOf, PendingTotal, AmountOf;
  }

  lemma ReleasedBalanced(s: SupplySide, count: nat, k: nat)
    requires k < |s.pending| && s.pending[k].account in s.positions
    requires MarketIncoming(s.incoming, count) && OutgoingPending(s.positions, s.pending)
    requires WellFormed(s.positions[s.pending[k].account], count)
    requires ListedIn(s.positions[s.pending[k].account].incoming, s.incoming, count)
    ensures AmountOf(s.pending[k]) <= s.positions[s.pending[k].account].outgoing
    ensures var a := s.pending[k].account;
            Balanced(s, Released(s, k), count, a, Released(s, k).positions[a])
  {
    SettlePending(s, k);
    var a := s.pending[k].account;
    assert Part(s.positions, Outgoing(), a) == PendingOf(s.pending, a);
    hide SumBy, PendingOf, PendingTotal, TotalIncoming, IncomingAt, ActivatedBy, AmountOf, Ordered;
  }

  lemma ReleasedKeeps(s: SupplySide, snaps: seq<Snapshot>, w: Weights, k: nat)
    requires SupplyInv(s, snaps, w) && k < |s.pending| && s.pending[k].account in s.positions
    ensures AmountOf(s.pending[k]) <= s.positions[s.pending[k].account].outgoing
    ensures var t := Released(s, k);
            && SupplyInv(t, snaps, w)
            && SumBy(t.positions, Outgoing()) + AmountOf(s.pending[k]) == SumBy(s.positions, Outgoing())
  {
    var a := s.pending[k].account;
    hide SupplyInv, Balanced, SumBy, AmountOf, WellFormed, OutgoingPending;
    hide RemoveAt, ListedIn, MarketIncoming, PendingOf;
    Parts(s, snaps, w, a);
    ReleasedBalanced(s, |snaps|, k);
    ReplaceKeeps(s, Released(s, k), snaps, w, a, Released(s, k).positions[a]);
  }

  lemma SettleSucceeds(s: SupplySide, snaps: seq<Snapshot>, w: Weights, k: nat)
    requires SupplyInv(s, snaps, w) && k < |s.pending| && s.pending[k].account in s.positions
    ensures Settle(s, |snaps|, k, true).Some?
    ensures var t := Settle(s, |snaps|, k, true).value;
            SupplyInv(t, snaps, w) && SettleEffect(s, t, s.pending[k], true)
  {
    hide SupplyInv, SumBy, TotalIncoming, AmountOf, Cleanup, AddIncoming, RemoveAt;
    ReleasedKeeps(s, snaps, w, k);
    CleanupKeeps(Released(s, k), snaps, w, s.pending[k].account);
  }

  lemma SettleFails(s: SupplySide, snaps: seq<Snapshot>, w: Weights, k: nat)
    requires SupplyInv(s, snaps, w) && k < |s.pending| && s.pending[k].account in s.positions
    ensures Settle(s, |snaps|, k, false).None? <==> Full(s.positions[s.pending[k].account], |snaps|)
    ensures Settle(s, |snaps|, k, false).Some? ==>
              var t, a := Settle(s, |snaps|, k, false).value, s.pending[k].account;
              && SupplyInv(t, snaps, w) && SettleEffect(s, t, s.pending[k], false)
              && a in t.positions && DepositTotal(t.positions[a]) == DepositTotal(s.positions[a])
  {
    hide SupplyInv, SumBy, TotalIncoming, AmountOf, Cleanup, AddOwn, AddMarket, RemoveAt;
    ReleasedKeeps(s, snaps, w, k);
    AddIncomingKeeps(Released(s, k), snaps, w, s.pending[k].account, AmountOf(s.pending[k]));
  }

  /** A receipt whose position is gone carries nothing. */
  lemma SettleOrphan(s: SupplySide, snaps: seq<Snapshot>, w: Weights, k: nat, success: bool)
    requires SupplyInv(s, snaps, w) && k < |s.pending| && s.pending[k].account !in s.positions
    ensures AmountOf(s.pending[k]) == 0
    ensures var t := Settle(s, |snaps|, k, success).value;
            SupplyInv(t, snaps, w) && SettleEffect(s, t, s.pending[k], success)
  {
    SettlePending(s, k);
    var t := Settle(s, |snaps|, k, success).value;
    hide SumBy, PendingOf, PendingTotal, TotalIncoming, AmountOf, AllWellFormed, Listed;
    ReplaceHistory(s, t, snaps, w);
    hide History;
  }

  /** Settling aborts exactly when a failed transfer comes back to a position that
      has no room for another incoming entry. */
  lemma SettleKeeps(s: SupplySide, snaps: seq<Snapshot>, w: Weights, k: nat, success: bool)
    requires SupplyInv(s, snaps, w) && k < |s.pending|
    ensures var a := s.pending[k].account;
            Settle(s, |snaps|, k, success).None? <==>
            !success && a in s.positions && Full(s.positions[a], |snaps|)
    ensures Settle(s, |snaps|, k, success).Some? ==>
              var t := Settle(s, |snaps|, k, success).value;
              SupplyInv(t, snaps, w) && SettleEffect(s, t, s.pending[k], success)
  {
    hide SupplyInv, SettleEffect, Settle, Full;
    if s.pending[k].account !in s.positions {
      SettleOrphan(s, snaps, w, k, success);
      assert Settle(s, |snaps|, k, success).Some? by { SettleDefined(s, |snaps|, k, success); }
    } else if success {
      SettleSucceeds(s, snaps, w, k);
    } else {
      SettleFails(s, snaps, w, k);
    }
  }

  lemma SettleDefined(s: SupplySide, count: nat, k: nat, success: bool)
    requires k < |s.pending| && s.pending[k].account !in s.positions
    ensures Settle(s, count, k, success).Some?
  {}

  // ---- Finalizing a snapshot ----

  function AmountListedAt(incoming: seq<Incoming>, at: nat): (r: nat) {
    var k := FindAt(incoming, at);
    if k < |incoming| then incoming[k].amount else 0
  }

  /** The deposits that take part in the snapshot being finalized. */
  function CurrentActive(s: SupplySide, count: nat): (r: nat) {
    s.active + AmountListedAt(s.incoming, count)
  }

  /** Activates what the market expected at the index after the one just finalized. */
  function Activated(s: SupplySide, count: nat): (r: SupplySide) {
    var k := FindAt(s.incoming, count + 1);
    s.(active := s.active + AmountListedAt(s.incoming, count + 1),
       incoming := if k < |s.incoming| then RemoveAt(s.incoming, k) else s.incoming,
       used := s.used + [0], credited := s.credited + [0])
  }

  lemma ActivatedEffect(s: SupplySide, count: nat)
    requires MarketIncoming(s.incoming, count)
    ensures CurrentActive(s, count) == s.active
    ensures var t := Activated(s, count);
            t.incoming == [] && t.active == s.active + TotalIncoming(s.incoming)
  {
    if s.incoming != [] {
      assert s.incoming == [s.incoming[0]];
      OneEntry(s.incoming[0]);
      assert RemoveAt(s.incoming, 0) == [];
      assert FindAt(s.incoming, count) == 1;
    }
  }

  lemma ActivatedTotals(s: SupplySide, count: nat)
    requires Totals(s, count) && AllWellFormed(s.positions, count)
    ensures Totals(Activated(s, count), count + 1)
    ensures CurrentActive(s, count) == SumBy(s.positions, Open(count))
  {
    var m := s.positions;
    ActivatedEffect(s, count);
    forall a | a in m ensures Open(count + 1)(m[a]) == Open(count)(m[a]) + Due(count + 1)(m[a]) {
      assert WellFormed(m[a], count);
      ActivatedNext(m[a].incoming, m[a].earned.next, count);
    }
    SumAdd(m, Open(count), Due(count + 1), Open(count + 1));
    forall a | a in m ensures Due(count + 2)(m[a]) == 0 {
      assert WellFormed(m[a], count);
      NothingAt(m[a].incoming, count + 2);
    }
    SumZero(m, Due(count + 2));
    NoEntry();
    hide SumBy, Open, Due, Activated;
  }

  lemma SnapshotAppended(snaps: seq<Snapshot>, snap: Snapshot, j: nat)
    requires TimesOrdered(snaps) && 1 <= j < |snaps| && snaps[|snaps| - 1].end <= snap.end
    ensures TimesOrdered(snaps + [snap]) && Yield(snaps + [snap], j) == Yield(snaps, j)
    ensures Charge(snaps + [snap], j) == Charge(snaps, j)
  {
    hide RateTime, Interest;
  }

  lemma ActivatedHistory(s: SupplySide, snaps: seq<Snapshot>, w: Weights, snap: Snapshot)
    requires TimesOrdered(snaps) && TimesOrdered(snaps + [snap])
    requires 1 <= |snaps| && snaps[|snaps| - 1].end <= snap.end
    requires History(s, snaps, w) && snap.active == SumBy(s.positions, Open(|snaps|))
    ensures History(Activated(s, |snaps|), snaps + [snap], w)
  {
    var t, all := Activated(s, |snaps|), snaps + [snap];
    hide AmountListedAt, FindAt, RemoveAt;
    forall j | 1 <= j < |all| ensures BackedAt(t.positions, t.used, all, j) && CreditAt(t.used, t.credited, all, w, j) {
      if j < |snaps| {
        assert BackedAt(s.positions, s.used, snaps, j) && CreditAt(s.used, s.credited, snaps, w, j);
        SnapshotAppended(snaps, snap, j);
      }
      hide SumBy, Open, Yield;
    }
    hide SumBy, Open, BackedAt, CreditAt;
  }

  /** Finalizing a snapshot keeps the invariant; incoming deposits become active. */
  lemma ActivatedKeeps(s: SupplySide, snaps: seq<Snapshot>, w: Weights, snap: Snapshot)
    requires SupplyInv(s, snaps, w) && |snaps| < U32_MAX
    requires snaps[|snaps| - 1].end <= snap.end && snap.active == CurrentActive(s, |snaps|)
    ensures var t := Activated(s, |snaps|);
            && SupplyInv(t, snaps + [snap], w) && snap.active == s.active
            && t.active + TotalIncoming(t.incoming) == s.active + TotalIncoming(s.incoming)
            && t.positions == s.positions && t.pending == s.pending
  {
    var count, t := |snaps|, Activated(s, |snaps|);
    ActivatedTotals(s, count);
    ActivatedEffect(s, count);
    NoEntry();
    assert TimesOrdered(snaps + [snap]);
    ActivatedHistory(s, snaps, w, snap);
    assert AllWellFormed(t.positions, count + 1) && Listed(t.positions, t.incoming, count + 1) by {
      forall a | a in s.positions
        ensures WellFormed(s.positions[a], count + 1) && ListedIn(s.positions[a].incoming, t.incoming, count + 1)
      {
        assert WellFormed(s.positions[a], count);
      }
    }
    hide SumBy, History, Totals, AllWellFormed, Listed, OutgoingPending, TotalIncoming, TimesOrdered;
  }
}
