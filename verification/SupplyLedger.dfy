/**
 The suppliers' side of the market: positions with active, incoming and outgoing
 amounts, the market-wide totals kept beside them, and the receipts of
 withdrawals in flight. The invariant says how they fit together, and how much
 of every finalized snapshot's yield has been credited so far.
 */
module SupplyLedger {
  import opened Arith
  import opened Sums
  import opened Accrual

  datatype Withdrawal = Withdrawal(account: Account, toAccount: nat, toFees: nat)

  /** `active` and `incoming` are the market's own totals. The rest is history:
      `used` and `credited`, per snapshot, are the amount on which yield was already
      credited and that yield; `taken` is the yield withdrawn, and `dropped` the
      fractions of a unit lost with removed positions. */
  datatype SupplySide = SupplySide(positions: map<Account, SupplyPosition>, active: nat,
                                   incoming: seq<Incoming>, pending: seq<Withdrawal>,
                                   used: seq<nat>, credited: seq<nat>, taken: nat, dropped: nat)

  const MAX_INCOMING: nat := 4

  // ---- Deposits ----

  function TotalIncoming(incoming: seq<Incoming>): (r: nat) {
    if incoming == [] then 0 else incoming[0].amount + TotalIncoming(incoming[1..])
  }

  function DepositTotal(p: SupplyPosition): (r: nat) {
    p.active + p.outgoing + TotalIncoming(p.incoming)
  }

  /** Nothing is left in the position. */
  predicate Removable(p: SupplyPosition) {
    DepositTotal(p) == 0 && p.earned.total == 0
  }

  /** Adds to the newest entry of a position when it has the same index. */
  function AddOwn(own: seq<Incoming>, at: nat, amount: nat): (r: Option<seq<Incoming>>) {
    if own != [] && own[|own| - 1].at == at then
      Some(own[..|own| - 1] + [Incoming(at, own[|own| - 1].amount + amount)])
    else if |own| < MAX_INCOMING then Some(own + [Incoming(at, amount)])
    else None
  }

  function FindAt(incoming: seq<Incoming>, at: nat): (k: nat)
    ensures k <= |incoming| && (k < |incoming| ==> incoming[k].at == at)
    ensures forall i :: 0 <= i < k ==> incoming[i].at != at
  {
    if incoming == [] || incoming[0].at == at then 0 else 1 + FindAt(incoming[1..], at)
  }

  /** Adds to the market's entry with the same index, wherever it stands. */
  function AddMarket(incoming: seq<Incoming>, at: nat, amount: nat): (r: seq<Incoming>) {
    var k := FindAt(incoming, at);
    if k < |incoming| then incoming[k := Incoming(at, incoming[k].amount + amount)]
    else incoming + [Incoming(at, amount)]
  }

  /** Takes `amount` from the newest entries of a position and from the market's
      entries of the same indices; `None` where the source panics. */
  function RemoveIncoming(own: seq<Incoming>, market: seq<Incoming>, amount: nat, total: nat)
    : (r: Option<(seq<Incoming>, seq<Incoming>)>)
    decreases |own|
  {
    if own == [] then Some((own, market)) else
      var newest, rest := own[|own| - 1], own[..|own| - 1];
      var k := FindAt(market, newest.at);
      if k == |market| || market[k].amount < newest.amount then None else
        var market' := market[k := Incoming(newest.at, market[k].amount - newest.amount)];
        var total' := total + newest.amount;
        if total' == amount then Some((rest, market'))
        else if total' > amount then
          var back := AddOwn(rest, newest.at, total' - amount);
          if back.None? then None else Some((back.value, AddMarket(market', newest.at, total' - amount)))
        else RemoveIncoming(rest, market', amount, total')
  }

  // ---- Figures summed over positions ----

  /** A position's part in snapshot `j`, as long as it has not been credited. */
  function Open(j: nat): SupplyPosition -> nat {
    (p: SupplyPosition) => if p.earned.next <= j then AmountAt(p, j) else 0
  }

  function IncomingAt(incoming: seq<Incoming>, at: nat): (r: nat) {
    if incoming == [] then 0
    else (if incoming[0].at == at then incoming[0].amount else 0) + IncomingAt(incoming[1..], at)
  }

  function Due(at: nat): SupplyPosition -> nat {
    (p: SupplyPosition) => IncomingAt(p.incoming, at)
  }

  function Outgoing(): SupplyPosition -> nat {
    (p: SupplyPosition) => p.outgoing
  }

  /** Yield in units of `2^-128`. */
  function Earned(): SupplyPosition -> nat {
    (p: SupplyPosition) => Exact(p.earned)
  }

  function AmountOf(w: Withdrawal): (r: nat) {
    w.toAccount + w.toFees
  }

  function PendingOf(pending: seq<Withdrawal>, a: Account): (r: nat) {
    if pending == [] then 0
    else (if pending[0].account == a then AmountOf(pending[0]) else 0) + PendingOf(pending[1..], a)
  }

  function PendingTotal(pending: seq<Withdrawal>): (r: nat) {
    if pending == [] then 0 else AmountOf(pending[0]) + PendingTotal(pending[1..])
  }

  function PendingToAccounts(pending: seq<Withdrawal>): (r: nat) {
    if pending == [] then 0 else pending[0].toAccount + PendingToAccounts(pending[1..])
  }

  // ---- The invariant ----

  /** Incoming deposits rise strictly in their activation index, which lies above
      the accumulator's next snapshot and at most one past the current one. */
  ghost predicate WellFormed(p: SupplyPosition, count: nat) {
    && p.started.Some?
    && 1 <= p.earned.next <= count && p.earned.fraction < TWO_128
    && Ordered(p.incoming, p.earned.next) && |p.incoming| <= MAX_INCOMING
    && (forall k :: 0 <= k < |p.incoming| ==> p.incoming[k].at <= count + 1)
  }

  ghost predicate AllWellFormed(positions: map<Account, SupplyPosition>, count: nat) {
    forall a :: a in positions ==> WellFormed(positions[a], count)
  }

  /** The market has at most one incoming entry, for the next snapshot. */
  ghost predicate MarketIncoming(incoming: seq<Incoming>, count: nat) {
    |incoming| <= 1 && (incoming != [] ==> incoming[0].at == count + 1)
  }

  /** Whatever a position expects at the next snapshot, the market has an entry for. */
  ghost predicate ListedIn(own: seq<Incoming>, market: seq<Incoming>, count: nat) {
    market == [] ==> forall k :: 0 <= k < |own| ==> own[k].at <= count
  }

  ghost predicate Listed(positions: map<Account, SupplyPosition>, market: seq<Incoming>, count: nat) {
    forall a :: a in positions ==> ListedIn(positions[a].incoming, market, count)
  }

  /** Every supplier's outgoing amount is that of the receipts in flight. */
  ghost predicate OutgoingPending(positions: map<Account, SupplyPosition>, pending: seq<Withdrawal>) {
    && (forall a :: Part(positions, Outgoing(), a) == PendingOf(pending, a))
    && SumBy(positions, Outgoing()) == PendingTotal(pending)
  }

  /** Credited and uncredited parts make up the whole active deposit of a snapshot. */
  ghost predicate BackedAt(positions: map<Account, SupplyPosition>, used: seq<nat>, snaps: seq<Snapshot>, j: nat) {
    j < |used| && j < |snaps| && used[j] + SumBy(positions, Open(j)) == snaps[j].active
  }

  /** What was credited is covered by the part of the deposit it was credited on. */
  ghost predicate CreditAt(used: seq<nat>, credited: seq<nat>, snaps: seq<Snapshot>, w: Weights, j: nat) {
    && 1 <= j < |snaps| && j < |used| && j < |credited| && TimesOrdered(snaps)
    && credited[j] * (snaps[j].active * w.total) <= Yield(snaps, j) * used[j] * w.supply
    && (snaps[j].active == 0 ==> credited[j] == 0)
  }

  ghost predicate History(s: SupplySide, snaps: seq<Snapshot>, w: Weights) {
    && |s.used| == |s.credited| == |snaps| && snaps != [] && s.credited[0] == 0
    && (forall j :: 1 <= j < |snaps| ==> BackedAt(s.positions, s.used, snaps, j))
    && (forall j :: 1 <= j < |snaps| ==> CreditAt(s.used, s.credited, snaps, w, j))
  }

  /** Every unit credited is held by a position, was withdrawn, or was dropped. */
  ghost predicate Earnings(s: SupplySide) {
    SumBy(s.positions, Earned()) + s.taken * TWO_128 + s.dropped == Total(s.credited)
  }

  ghost predicate Totals(s: SupplySide, count: nat) {
    && s.active == SumBy(s.positions, Open(count))
    && MarketIncoming(s.incoming, count)
    && TotalIncoming(s.incoming) == SumBy(s.positions, Due(count + 1))
  }

  ghost predicate SupplyInv(s: SupplySide, snaps: seq<Snapshot>, w: Weights) {
    && ValidWeights(w) && TimesOrdered(snaps) && 1 <= |snaps| <= U32_MAX
    && AllWellFormed(s.positions, |snaps|)
    && Listed(s.positions, s.incoming, |snaps|)
    && Totals(s, |snaps|)
    && OutgoingPending(s.positions, s.pending)
    && History(s, snaps, w)
    && Earnings(s)
  }

  // ---- Lemmas about one position ----

  /** What becomes active with one more snapshot. */
  lemma {:induction false} ActivatedNext(incoming: seq<Incoming>, above: nat, i: nat)
    requires Ordered(incoming, above)
    ensures ActivatedBy(incoming, i + 1) == ActivatedBy(incoming, i) + IncomingAt(incoming, i + 1)
    decreases |incoming|
  {
    if incoming != [] {
      if incoming[0].at <= i {
        ActivatedNext(incoming[1..], above, i);
      } else {
        NothingAt(incoming[1..], i + 1);
        assert incoming[1..] != [] ==> incoming[1..][0].at > i + 1;
      }
    }
  }

  lemma {:induction false} NothingAt(incoming: seq<Incoming>, at: nat)
    requires forall k :: 0 <= k < |incoming| ==> incoming[k].at != at
    ensures IncomingAt(incoming, at) == 0
    decreases |incoming|
  {
    if incoming != [] {
      NothingAt(incoming[1..], at);
    }
  }

  lemma {:induction false} NoneActivated(incoming: seq<Incoming>, i: nat)
    requires forall k :: 0 <= k < |incoming| ==> incoming[k].at > i
    ensures ActivatedBy(incoming, i) == 0 && StillIncoming(incoming, i) == incoming
  {}

  lemma {:induction false} StillIncomingShape(incoming: seq<Incoming>, above: nat, i: nat)
    requires Ordered(incoming, above)
    ensures Ordered(StillIncoming(incoming, i), i) && |StillIncoming(incoming, i)| <= |incoming|
    ensures forall k :: 0 <= k < |StillIncoming(incoming, i)| ==>
              exists l :: 0 <= l < |incoming| && StillIncoming(incoming, i)[k] == incoming[l]
    ensures forall at :: at > i ==> IncomingAt(StillIncoming(incoming, i), at) == IncomingAt(incoming, at)
    decreases |incoming|
  {
    if incoming != [] && incoming[0].at <= i {
      var rest := incoming[1..];
      StillIncomingShape(rest, above, i);
      forall k | 0 <= k < |StillIncoming(incoming, i)|
        ensures exists l :: 0 <= l < |incoming| && StillIncoming(incoming, i)[k] == incoming[l]
      {
        var l :| 0 <= l < |rest| && StillIncoming(rest, i)[k] == rest[l];
        assert rest[l] == incoming[l + 1];
      }
    }
  }

  // ---- Accrual ----

  function AddUsed(used: seq<nat>, p: SupplyPosition, from: nat, upTo: nat): (r: seq<nat>) {
    seq(|used|, j requires 0 <= j < |used| => if from <= j < upTo then used[j] + AmountAt(p, j) else used[j])
  }

  function AddCredited(credited: seq<nat>, p: SupplyPosition, snaps: seq<Snapshot>, w: Weights,
                       from: nat, upTo: nat): (r: seq<nat>)
    requires TimesOrdered(snaps) && 1 <= from && upTo <= |snaps| && w.total > 0
  {
    seq(|credited|, j requires 0 <= j < |credited| =>
      if from <= j < upTo then credited[j] + Share(Yield(snaps, j), AmountAt(p, j), snaps[j].active, w)
      else credited[j])
  }

  /** `accumulate_yield_partial` on the position of `a`. */
  function AccrueSupply(s: SupplySide, snaps: seq<Snapshot>, w: Weights, a: Account, limit: nat): (r: SupplySide)
    requires a in s.positions && TimesOrdered(snaps) && w.total > 0 && WellFormed(s.positions[a], |snaps|)
  {
    var p := s.positions[a];
    var q := AccrueYield(p, snaps, w, limit);
    AccrueYieldExact(p, snaps, w, limit);
    s.(positions := s.positions[a := q],
       used := AddUsed(s.used, p, p.earned.next, q.earned.next),
       credited := AddCredited(s.credited, p, snaps, w, p.earned.next, q.earned.next))
  }

  /** The history grows by exactly what the position's accumulator grows. */
  lemma CreditsAreEarnings(credited: seq<nat>, p: SupplyPosition, snaps: seq<Snapshot>, w: Weights,
                           from: nat, upTo: nat)
    requires TimesOrdered(snaps) && 1 <= from <= upTo <= |snaps| == |credited| && w.total > 0
    ensures Total(AddCredited(credited, p, snaps, w, from, upTo))
            == Total(credited) + YieldSum(p.active, p.incoming, snaps, w, from, upTo)
  {
    CreditsUpTo(credited, p, snaps, w, from, upTo, |credited|);
    assert credited[..|credited|] == credited;
    var r := AddCredited(credited, p, snaps, w, from, upTo);
    assert r[..|r|] == r;
  }

  lemma TotalOfPrefix(s: seq<nat>, k: nat)
    requires 0 < k <= |s|
    ensures Total(s[..k]) == Total(s[..k - 1]) + s[k - 1]
  {
    assert s[..k][..k - 1] == s[..k - 1];
  }

  lemma {:induction false} CreditsUpTo(credited: seq<nat>, p: SupplyPosition, snaps: seq<Snapshot>, w: Weights,
                                       from: nat, upTo: nat, k: nat)
    requires TimesOrdered(snaps) && 1 <= from <= upTo <= |snaps| == |credited| && w.total > 0 && k <= |credited|
    ensures Total(AddCredited(credited, p, snaps, w, from, upTo)[..k])
            == Total(credited[..k]) + YieldSum(p.active, p.incoming, snaps, w, from, Min(k, upTo))
    decreases k
  {
    hide Share, Yield, ActivatedBy;
    if k > 0 {
      CreditsUpTo(credited, p, snaps, w, from, upTo, k - 1);
      var r := AddCredited(credited, p, snaps, w, from, upTo);
      TotalOfPrefix(r, k);
      TotalOfPrefix(credited, k);
    }
  }

  lemma AccruedPosition(p: SupplyPosition, snaps: seq<Snapshot>, w: Weights, limit: nat)
    requires TimesOrdered(snaps) && w.total > 0 && WellFormed(p, |snaps|)
    ensures var q := AccrueYield(p, snaps, w, limit);
            && WellFormed(q, |snaps|) && p.earned.next <= q.earned.next
            && (|snaps| <= U32_MAX && limit == U32_MAX ==> q.earned.next == |snaps|)
            && q.outgoing == p.outgoing && IncomingAt(q.incoming, |snaps| + 1) == IncomingAt(p.incoming, |snaps| + 1)
            && forall market :: ListedIn(p.incoming, market, |snaps|) ==> ListedIn(q.incoming, market, |snaps|)
    ensures forall j :: AccrueYield(p, snaps, w, limit).earned.next <= j ==>
              AmountAt(AccrueYield(p, snaps, w, limit), j) == AmountAt(p, j)
  {
    var q := AccrueYield(p, snaps, w, limit);
    AccrueYieldExact(p, snaps, w, limit);
    StillIncomingShape(p.incoming, p.earned.next, q.earned.next);
    hide AccrueYield;
    forall j | q.earned.next <= j ensures AmountAt(q, j) == AmountAt(p, j) {
      ActivateTwice(p.incoming, q.earned.next, j);
    }
  }

  /** How the open part of a position changes when it accrues: it is closed for the
      snapshots passed and kept for all others. */
  lemma AccruedOpen(p: SupplyPosition, snaps: seq<Snapshot>, w: Weights, limit: nat, j: nat)
    requires TimesOrdered(snaps) && w.total > 0 && WellFormed(p, |snaps|)
    ensures var q := AccrueYield(p, snaps, w, limit);
            Open(j)(p) == Open(j)(q) + (if p.earned.next <= j < q.earned.next then AmountAt(p, j) else 0)
  {
    AccruedPosition(p, snaps, w, limit);
    hide AccrueYield;
  }

  lemma AccrueBacked(s: SupplySide, snaps: seq<Snapshot>, w: Weights, a: Account, limit: nat, j: nat)
    requires a in s.positions && TimesOrdered(snaps) && w.total > 0 && WellFormed(s.positions[a], |snaps|)
    requires BackedAt(s.positions, s.used, snaps, j)
    ensures var r := AccrueSupply(s, snaps, w, a, limit);
            BackedAt(r.positions, r.used, snaps, j)
  {
    var p := s.positions[a];
    AccruedOpen(p, snaps, w, limit, j);
    SumUpdate(s.positions, Open(j), a, AccrueYield(p, snaps, w, limit));
    hide AccrueYield, SumBy, Open;
  }

  lemma AccruedNext(p: SupplyPosition, snaps: seq<Snapshot>, w: Weights, limit: nat)
    requires TimesOrdered(snaps) && w.total > 0 && WellFormed(p, |snaps|)
    ensures 1 <= p.earned.next <= AccrueYield(p, snaps, w, limit).earned.next <= |snaps|
  {
    AccrueYieldExact(p, snaps, w, limit);
  }

  lemma AccrueCredit(s: SupplySide, snaps: seq<Snapshot>, w: Weights, a: Account, limit: nat, j: nat)
    requires a in s.positions && ValidWeights(w) && WellFormed(s.positions[a], |snaps|)
    requires CreditAt(s.used, s.credited, snaps, w, j)
    ensures var r := AccrueSupply(s, snaps, w, a, limit);
            CreditAt(r.used, r.credited, snaps, w, j)
  {
    hide AccrueYield, Share, Yield, AmountAt, WellFormed, ListedIn, IncomingAt;
    var p := s.positions[a];
    var r := AccrueSupply(s, snaps, w, a, limit);
    assert p.earned.next >= 1 && r.positions[a].earned.next <= |snaps| by { AccruedNext(p, snaps, w, limit); }
    if p.earned.next <= j < r.positions[a].earned.next {
      ShareBound(Yield(snaps, j), AmountAt(p, j), snaps[j].active, w);
      ShareOfNothing(Yield(snaps, j), AmountAt(p, j), w);
      AddScaled(s.credited[j], Share(Yield(snaps, j), AmountAt(p, j), snaps[j].active, w),
                snaps[j].active * w.total, Yield(snaps, j), s.used[j], AmountAt(p, j), w.supply);
    }
  }

  lemma AccrueOutgoing(s: SupplySide, snaps: seq<Snapshot>, w: Weights, a: Account, limit: nat)
    requires a in s.positions && TimesOrdered(snaps) && w.total > 0 && WellFormed(s.positions[a], |snaps|)
    ensures var r := AccrueSupply(s, snaps, w, a, limit);
            && SumBy(r.positions, Outgoing()) == SumBy(s.positions, Outgoing())
            && SumBy(r.positions, Due(|snaps| + 1)) == SumBy(s.positions, Due(|snaps| + 1))
            && SumBy(r.positions, Open(|snaps|)) == SumBy(s.positions, Open(|snaps|))
            && (forall b :: Part(r.positions, Outgoing(), b) == Part(s.positions, Outgoing(), b))
  {
    var p := s.positions[a];
    var q := AccrueYield(p, snaps, w, limit);
    AccruedPosition(p, snaps, w, limit);
    AccruedOpen(p, snaps, w, limit, |snaps|);
    SumUpdate(s.positions, Outgoing(), a, q);
    SumUpdate(s.positions, Due(|snaps| + 1), a, q);
    SumUpdate(s.positions, Open(|snaps|), a, q);
    hide AccrueYield, SumBy;
  }

  lemma AccrueEarnings(s: SupplySide, snaps: seq<Snapshot>, w: Weights, a: Account, limit: nat)
    requires a in s.positions && TimesOrdered(snaps) && w.total > 0 && WellFormed(s.positions[a], |snaps|)
    requires Earnings(s) && |s.credited| == |snaps|
    ensures Earnings(AccrueSupply(s, snaps, w, a, limit))
  {
    var p := s.positions[a];
    var q := AccrueYield(p, snaps, w, limit);
    AccrueYieldExact(p, snaps, w, limit);
    CreditsAreEarnings(s.credited, p, snaps, w, p.earned.next, q.earned.next);
    SumUpdate(s.positions, Earned(), a, q);
    hide AccrueYield, SumBy, AddCredited, AddUsed, Total, YieldSum;
  }

  lemma AccrueHistory(s: SupplySide, snaps: seq<Snapshot>, w: Weights, a: Account, limit: nat)
    requires a in s.positions && TimesOrdered(snaps) && ValidWeights(w) && WellFormed(s.positions[a], |snaps|)
    requires History(s, snaps, w)
    ensures History(AccrueSupply(s, snaps, w, a, limit), snaps, w)
  {
    var r := AccrueSupply(s, snaps, w, a, limit);
    hide AccrueYield, SumBy, BackedAt, CreditAt, WellFormed;
    forall j | 1 <= j < |snaps| ensures BackedAt(r.positions, r.used, snaps, j) {
      AccrueBacked(s, snaps, w, a, limit, j);
    }
    forall j | 1 <= j < |snaps| ensures CreditAt(r.used, r.credited, snaps, w, j) {
      AccrueCredit(s, snaps, w, a, limit, j);
    }
  }

  /** Accruing keeps the invariant and moves no market total. */
  lemma AccrueSupplyKeeps(s: SupplySide, snaps: seq<Snapshot>, w: Weights, a: Account, limit: nat)
    requires SupplyInv(s, snaps, w) && a in s.positions
    ensures WellFormed(s.positions[a], |snaps|)
    ensures var r := AccrueSupply(s, snaps, w, a, limit);
            && SupplyInv(r, snaps, w)
            && SumBy(r.positions, Outgoing()) == SumBy(s.positions, Outgoing())
  {
    hide AccrueYield, SumBy, History, WellFormed, ListedIn, MarketIncoming, TotalIncoming, AddUsed, AddCredited;
    AccruedPosition(s.positions[a], snaps, w, limit);
    AccrueOutgoing(s, snaps, w, a, limit);
    assert |s.credited| == |snaps| by { HistorySizes(s, snaps, w); }
    AccrueHistory(s, snaps, w, a, limit);
    hide Earnings;
    AccrueEarnings(s, snaps, w, a, limit);
  }

  lemma HistorySizes(s: SupplySide, snaps: seq<Snapshot>, w: Weights)
    requires History(s, snaps, w)
    ensures |s.credited| == |snaps|
  {}

  // ---- Changing one position ----

  /** The condition under which one position, and with it the market's totals and
      the receipts, may change: no finalized snapshot is affected, and totals and
      receipts move by exactly what the position moves. */
  ghost predicate Balanced(s: SupplySide, t: SupplySide, count: nat, a: Account, p: SupplyPosition) {
    && WellFormed(p, count)
    && (forall j :: 1 <= j < count ==> Open(j)(p) == Part(s.positions, Open(j), a))
    && t.active + Part(s.positions, Open(count), a) == s.active + Open(count)(p)
    && MarketIncoming(t.incoming, count)
    && TotalIncoming(t.incoming) + Part(s.positions, Due(count + 1), a)
       == TotalIncoming(s.incoming) + Due(count + 1)(p)
    && ListedIn(p.incoming, t.incoming, count) && (t.incoming == [] ==> s.incoming == [])
    && (forall b :: PendingOf(t.pending, b) == if b == a then p.outgoing else PendingOf(s.pending, b))
    && PendingTotal(t.pending) + Part(s.positions, Outgoing(), a) == PendingTotal(s.pending) + p.outgoing
    && Earned()(p) + t.taken * TWO_128 + t.dropped
       == Part(s.positions, Earned(), a) + s.taken * TWO_128 + s.dropped
    && t.positions == s.positions[a := p] && t.used == s.used && t.credited == s.credited
  }

  lemma ReplaceHistory(s: SupplySide, t: SupplySide, snaps: seq<Snapshot>, w: Weights)
    requires History(s, snaps, w) && t.used == s.used && t.credited == s.credited
    requires forall j :: 1 <= j < |snaps| ==> SumBy(t.positions, Open(j)) == SumBy(s.positions, Open(j))
    ensures History(t, snaps, w)
  {
    hide SumBy, Open, CreditAt;
    forall j | 1 <= j < |snaps| ensures BackedAt(t.positions, t.used, snaps, j) {
      assert BackedAt(s.positions, s.used, snaps, j);
    }
  }

  lemma ReplaceKeeps(s: SupplySide, t: SupplySide, snaps: seq<Snapshot>, w: Weights, a: Account, p: SupplyPosition)
    requires SupplyInv(s, snaps, w) && Balanced(s, t, |snaps|, a, p)
    ensures SupplyInv(t, snaps, w)
    ensures SumBy(t.positions, Outgoing()) + Part(s.positions, Outgoing(), a)
            == SumBy(s.positions, Outgoing()) + p.outgoing
  {
    hide SumBy, Open, Due, Earned, History, WellFormed, TotalIncoming, MarketIncoming, PendingOf, PendingTotal, Total;
    SumUpdate(s.positions, Outgoing(), a, p);
    SumUpdate(s.positions, Earned(), a, p);
    SumUpdate(s.positions, Due(|snaps| + 1), a, p);
    SumUpdate(s.positions, Open(|snaps|), a, p);
    forall j | 1 <= j < |snaps| ensures SumBy(t.positions, Open(j)) == SumBy(s.positions, Open(j)) {
      SumUpdate(s.positions, Open(j), a, p);
    }
    ReplaceHistory(s, t, snaps, w);
    forall b ensures Part(t.positions, Outgoing(), b) == PendingOf(t.pending, b) {
      assert Part(s.positions, Outgoing(), b) == PendingOf(s.pending, b);
    }
  }

  lemma {:induction false} NoIncomingNoParts(incoming: seq<Incoming>, i: nat)
    requires TotalIncoming(incoming) == 0
    ensures ActivatedBy(incoming, i) == 0 && IncomingAt(incoming, i) == 0
    decreases |incoming|
  {
    if incoming != [] {
      NoIncomingNoParts(incoming[1..], i);
    }
  }

  lemma RemovableIsNothing(p: SupplyPosition)
    requires Removable(p)
    ensures Outgoing()(p) == 0 && forall j :: Open(j)(p) == 0 && Due(j)(p) == 0
  {
    forall j ensures Open(j)(p) == 0 && Due(j)(p) == 0 {
      NoIncomingNoParts(p.incoming, j);
    }
  }

  lemma ForgetEmpty(positions: map<Account, SupplyPosition>, pending: seq<Withdrawal>, a: Account, count: nat)
    requires a in positions && Removable(positions[a])
    ensures var rest := positions - {a};
            && SumBy(rest, Outgoing()) == SumBy(positions, Outgoing())
            && SumBy(rest, Due(count + 1)) == SumBy(positions, Due(count + 1))
            && (forall j :: SumBy(rest, Open(j)) == SumBy(positions, Open(j)))
            && (OutgoingPending(positions, pending) ==> OutgoingPending(rest, pending))
  {
    RemovableIsNothing(positions[a]);
    hide Removable, SumBy, Open, Due, PendingOf, PendingTotal;
    SumForget(positions, Outgoing(), a);
    SumForget(positions, Due(count + 1), a);
    forall j ensures SumBy(positions - {a}, Open(j)) == SumBy(positions, Open(j)) {
      SumForget(positions, Open(j), a);
    }
  }

  /** The side without the position of `a`. */
  function Without(s: SupplySide, a: Account): (r: SupplySide)
    requires a in s.positions
  {
    s.(positions := s.positions - {a}, dropped := s.dropped + s.positions[a].earned.fraction)
  }

  /** An empty position can be dropped with no more than a fraction of a unit. */
  lemma DeleteKeeps(s: SupplySide, snaps: seq<Snapshot>, w: Weights, a: Account)
    requires SupplyInv(s, snaps, w) && a in s.positions && Removable(s.positions[a])
    ensures SupplyInv(Without(s, a), snaps, w)
    ensures SumBy(s.positions - {a}, Outgoing()) == SumBy(s.positions, Outgoing())
  {
    assert Earned()(s.positions[a]) == s.positions[a].earned.fraction;
    hide Removable, SumBy, Open, Due, Earned, History, WellFormed, TotalIncoming;
    hide MarketIncoming, ListedIn, OutgoingPending;
    SumDelete(s.positions, Earned(), a);
    ForgetEmpty(s.positions, s.pending, a, |snaps|);
    ReplaceHistory(s, Without(s, a), snaps, w);
  }

  // ---- Adding and removing incoming deposits ----

  /** The incoming list of a well-formed position. */
  ghost predicate IncomingShape(own: seq<Incoming>, above: nat, count: nat) {
    Ordered(own, above) && |own| <= MAX_INCOMING && forall k :: 0 <= k < |own| ==> own[k].at <= count + 1
  }

  lemma {:induction false} ConcatParts(a: seq<Incoming>, b: Incoming, i: nat)
    ensures IncomingAt(a + [b], i) == IncomingAt(a, i) + (if b.at == i then b.amount else 0)
    ensures b.at > i ==> ActivatedBy(a + [b], i) == ActivatedBy(a, i)
    ensures TotalIncoming(a + [b]) == TotalIncoming(a) + b.amount
    decreases |a|
  {
    if a == [] {
      assert a + [b] == [b] && [b][1..] == [];
    } else {
      assert (a + [b])[1..] == a[1..] + [b];
      ConcatParts(a[1..], b, i);
    }
  }

  lemma OneEntry(x: Incoming)
    ensures TotalIncoming([x]) == x.amount && IncomingAt([x], x.at) == x.amount && FindAt([x], x.at) == 0
    ensures AddOwn([], x.at, x.amount) == Some([x])
  {
    assert [x][1..] == [];
    assert [] + [x] == [x];
  }

  /** Adding at the next snapshot's index disturbs nothing already activated. */
  lemma AddOwnEffect(own: seq<Incoming>, above: nat, count: nat, amount: nat, j: nat)
    requires IncomingShape(own, above, count) && above <= count && j <= count
    ensures AddOwn(own, count + 1, amount).None? <==> |own| == MAX_INCOMING && own[|own| - 1].at <= count
    ensures AddOwn(own, count + 1, amount).Some? ==>
              var r := AddOwn(own, count + 1, amount).value;
              && IncomingShape(r, above, count)
              && ActivatedBy(r, j) == ActivatedBy(own, j)
              && IncomingAt(r, count + 1) == IncomingAt(own, count + 1) + amount
              && TotalIncoming(r) == TotalIncoming(own) + amount
  {
    hide ActivatedBy, IncomingAt, TotalIncoming;
    if own != [] && own[|own| - 1].at == count + 1 {
      var init, last := own[..|own| - 1], own[|own| - 1];
      assert own == init + [last];
      ConcatParts(init, last, count + 1);
      ConcatParts(init, Incoming(count + 1, last.amount + amount), count + 1);
      ConcatParts(init, last, j);
      ConcatParts(init, Incoming(count + 1, last.amount + amount), j);
    } else {
      ConcatParts(own, Incoming(count + 1, amount), count + 1);
      ConcatParts(own, Incoming(count + 1, amount), j);
    }
  }

  lemma AddMarketEffect(incoming: seq<Incoming>, count: nat, amount: nat)
    requires MarketIncoming(incoming, count)
    ensures MarketIncoming(AddMarket(incoming, count + 1, amount), count)
    ensures TotalIncoming(AddMarket(incoming, count + 1, amount)) == TotalIncoming(incoming) + amount
  {
    hide TotalIncoming, FindAt;
    if incoming == [] {
      assert incoming + [Incoming(count + 1, amount)] == [Incoming(count + 1, amount)];
      assert TotalIncoming(incoming) == 0 by { NoEntry(); }
      OneEntry(Incoming(count + 1, amount));
    } else {
      assert incoming == [incoming[0]];
      OneEntry(incoming[0]);
      OneEntry(Incoming(count + 1, incoming[0].amount + amount));
      assert incoming[0 := Incoming(count + 1, incoming[0].amount + amount)]
             == [Incoming(count + 1, incoming[0].amount + amount)];
    }
  }

  lemma NoEntry()
    ensures TotalIncoming([]) == 0
  {}

  lemma {:induction false} Spread(own: seq<Incoming>, above: nat, k: nat)
    requires Ordered(own, above) && k < |own|
    ensures own[k].at > above + k
    decreases k
  {
    if k > 0 {
      Spread(own, above, k - 1);
    }
  }

  /** A fully accrued position has at most one incoming entry, for the next snapshot. */
  lemma AccruedShape(own: seq<Incoming>, count: nat)
    requires IncomingShape(own, count, count)
    ensures |own| <= 1 && (own != [] ==> own[0].at == count + 1)
    ensures TotalIncoming(own) == IncomingAt(own, count + 1)
    ensures ActivatedBy(own, count) == 0
  {
    if own != [] {
      Spread(own, count, |own| - 1);
    }
    NoneActivated(own, count);
    if own != [] {
      assert own == [own[0]];
      OneEntry(own[0]);
    }
  }

  /** Taking incoming deposits back after accruing: neither panic of the source is
      reached, and position and market shrink by the same amount. */
  lemma RemoveIncomingEffect(own: seq<Incoming>, market: seq<Incoming>, count: nat, amount: nat)
    requires IncomingShape(own, count, count) && MarketIncoming(market, count)
    requires ListedIn(own, market, count) && amount <= TotalIncoming(own) <= TotalIncoming(market)
    ensures RemoveIncoming(own, market, amount, 0).Some?
    ensures var (own', market') := RemoveIncoming(own, market, amount, 0).value;
            && IncomingShape(own', count, count) && MarketIncoming(market', count)
            && TotalIncoming(own') == TotalIncoming(own) - amount
            && TotalIncoming(market') == TotalIncoming(market) - amount
            && |market'| == |market| && ListedIn(own', market', count)
  {
    hide TotalIncoming, IncomingAt, FindAt, ActivatedBy;
    AccruedShape(own, count);
    NoEntry();
    if own != [] {
      OneEntry(own[0]);
      assert own == [own[0]];
      assert own[0].at == count + 1 && market != [];
      assert market == [market[0]];
      OneEntry(market[0]);
      OneEach(count + 1, own[0].amount, amount, market[0].amount);
    }
  }

  lemma OneEach(at: nat, x: nat, amount: nat, total: nat)
    requires amount <= x <= total
    ensures RemoveIncoming([Incoming(at, x)], [Incoming(at, total)], amount, 0)
            == Some((if x == amount then [] else [Incoming(at, x - amount)], [Incoming(at, total - amount)]))
    ensures x != amount ==> TotalIncoming([Incoming(at, x - amount)]) == x - amount
    ensures TotalIncoming([Incoming(at, total - amount)]) == total - amount
  {
    var market, less := [Incoming(at, total)], [Incoming(at, total - x)];
    hide TotalIncoming, FindAt, AddOwn, IncomingAt;
    assert [Incoming(at, x)][..0] == [];
    assert market[0 := Incoming(at, total - x)] == less;
    OneEntry(Incoming(at, total));
    OneEntry(Incoming(at, total - x));
    OneEntry(Incoming(at, total - amount));
    if x != amount {
      OneEntry(Incoming(at, x - amount));
      assert less[0 := Incoming(at, total - amount)] == [Incoming(at, total - amount)];
    }
  }

  // ---- Receipts ----

  lemma {:induction false} PendingRemove(pending: seq<Withdrawal>, k: nat, a: Account)
    requires k < |pending|
    ensures PendingOf(pending, a)
            == PendingOf(RemoveAt(pending, k), a) + (if pending[k].account == a then AmountOf(pending[k]) else 0)
    ensures PendingTotal(pending) == PendingTotal(RemoveAt(pending, k)) + AmountOf(pending[k])
    ensures PendingToAccounts(pending) == PendingToAccounts(RemoveAt(pending, k)) + pending[k].toAccount
    decreases |pending|
  {
    var r := RemoveAt(pending, k);
    if k == 0 {
      assert r == pending[1..];
    } else {
      assert r[1..] == RemoveAt(pending[1..], k - 1) && r[0] == pending[0];
      PendingRemove(pending[1..], k - 1, a);
    }
  }

  lemma PendingAppend(pending: seq<Withdrawal>, x: Withdrawal, a: Account)
    ensures PendingOf(pending + [x], a) == PendingOf(pending, a) + (if x.account == a then AmountOf(x) else 0)
    ensures PendingTotal(pending + [x]) == PendingTotal(pending) + AmountOf(x)
    ensures PendingToAccounts(pending + [x]) == PendingToAccounts(pending) + x.toAccount
  {
    var all := pending + [x];
    PendingRemove(all, |pending|, a);
    assert RemoveAt(all, |pending|) == pending;
  }
}
