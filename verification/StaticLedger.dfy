/**
 The accounts that earn a fixed weight of the yield. Each has an accumulator of
 its own, which also takes the protocol's fees; withdrawals leave at once and come
 back if the transfer fails.
 */
module StaticLedger {
  import opened Arith
  import opened Sums
  import opened Accrual
  import opened BorrowLedger

  /** An account without a weight, as the protocol's may be, takes fees but earns no yield. */
  datatype StaticRecord = StaticRecord(weight: Option<nat>, earned: Accumulator)

  function WeightOf(r: StaticRecord): (w: nat) {
    if r.weight.Some? then r.weight.value else 0
  }

  /** `used` and `credited`, per snapshot, are the weight already credited and the
      yield credited on it; `received` counts fees, `withdrawn` what has left. */
  datatype StaticSide = StaticSide(records: map<Account, StaticRecord>, pending: seq<Receipt>,
                                   used: seq<nat>, credited: seq<nat>, received: nat, withdrawn: nat)

  function Weight(): StaticRecord -> nat { (r: StaticRecord) => WeightOf(r) }

  function EarnedStatic(): StaticRecord -> nat { (r: StaticRecord) => Exact(r.earned) }

  /** The weight of a record not yet credited for snapshot `j`. */
  function Waiting(j: nat): StaticRecord -> nat {
    (r: StaticRecord) => if r.earned.next <= j then WeightOf(r) else 0
  }

  function StaticSum(weight: nat, total: nat, snaps: seq<Snapshot>, from: nat, upTo: nat): (r: nat)
    requires TimesOrdered(snaps) && 1 <= from && (from < upTo ==> upTo <= |snaps|) && total > 0
    decreases upTo
  {
    if from >= upTo then 0
    else StaticSum(weight, total, snaps, from, upTo - 1) + StaticShare(Yield(snaps, upTo - 1), weight, total)
  }

  function StaticShare(pot: nat, weight: nat, total: nat): (r: nat)
    requires total > 0
  {
    MulNat(pot, weight);
    pot * weight / total
  }

  ghost predicate SoundRecord(r: StaticRecord, count: nat) {
    1 <= r.earned.next <= count && r.earned.fraction < TWO_128
  }

  ghost predicate WeightAt(t: StaticSide, w: Weights, j: nat) {
    j < |t.used| && t.used[j] + SumBy(t.records, Waiting(j)) + w.supply == w.total
  }

  ghost predicate StaticCreditAt(t: StaticSide, snaps: seq<Snapshot>, w: Weights, j: nat) {
    && 1 <= j < |snaps| && j < |t.used| && j < |t.credited| && TimesOrdered(snaps)
    && t.credited[j] * w.total <= Yield(snaps, j) * t.used[j]
  }

  ghost predicate StaticHistory(t: StaticSide, snaps: seq<Snapshot>, w: Weights) {
    && |t.used| == |t.credited| == |snaps| && snaps != [] && t.credited[0] == 0
    && (forall j :: 1 <= j < |snaps| ==> WeightAt(t, w, j))
    && (forall j :: 1 <= j < |snaps| ==> StaticCreditAt(t, snaps, w, j))
  }

  /** Everything earned or received is held or has left. */
  ghost predicate StaticBooks(t: StaticSide) {
    && SumBy(t.records, EarnedStatic()) + t.withdrawn * TWO_128 == Total(t.credited) + t.received * TWO_128
    && ReceiptsTotal(t.pending) <= t.withdrawn
  }

  ghost predicate StaticInv(t: StaticSide, snaps: seq<Snapshot>, w: Weights) {
    && ValidWeights(w) && TimesOrdered(snaps) && 1 <= |snaps| <= U32_MAX
    && SumBy(t.records, Weight()) + w.supply == w.total
    && (forall a :: a in t.records ==> SoundRecord(t.records[a], |snaps|))
    && StaticHistory(t, snaps, w) && StaticBooks(t)
  }

  // ---- Accrual ----

  function AddStatic(credited: seq<nat>, weight: nat, total: nat, snaps: seq<Snapshot>, from: nat, upTo: nat)
    : (r: seq<nat>)
    requires TimesOrdered(snaps) && 1 <= from && upTo <= |snaps| && total > 0
  {
    seq(|credited|, j requires 0 <= j < |credited| =>
      if from <= j < upTo then credited[j] + StaticShare(Yield(snaps, j), weight, total) else credited[j])
  }

  lemma {:induction false} StaticUpTo(credited: seq<nat>, weight: nat, total: nat, snaps: seq<Snapshot>,
                                      from: nat, upTo: nat, k: nat)
    requires TimesOrdered(snaps) && 1 <= from <= upTo <= |snaps| == |credited| && total > 0 && k <= |credited|
    ensures Total(AddStatic(credited, weight, total, snaps, from, upTo)[..k])
            == Total(credited[..k]) + StaticSum(weight, total, snaps, from, Min(k, upTo))
    decreases k
  {
    if k > 0 {
      StaticUpTo(credited, weight, total, snaps, from, upTo, k - 1);
      var r := AddStatic(credited, weight, total, snaps, from, upTo);
      assert r[..k][..k - 1] == r[..k - 1] && credited[..k][..k - 1] == credited[..k - 1];
      assert r[..k][k - 1] == r[k - 1] && credited[..k][k - 1] == credited[k - 1];
      hide StaticShare, Yield, AddStatic;
      if from < k <= upTo {
        assert r[k - 1] == credited[k - 1] + StaticShare(Yield(snaps, k - 1), weight, total);
      } else {
        assert r[k - 1] == credited[k - 1];
      }
    }
  }

  /** `accumulate_static_yield` for the record of `a`. */
  function AccrueStatic(t: StaticSide, snaps: seq<Snapshot>, total: nat, a: Account, limit: nat): (r: StaticSide)
    requires a in t.records && TimesOrdered(snaps) && total > 0 && SoundRecord(t.records[a], |snaps|)
  {
    var x := t.records[a];
    var n := Reach(x.earned.next, limit, |snaps|);
    var earned := Accumulate(x.earned, RecordOf(StaticSum(WeightOf(x), total, snaps, x.earned.next, n), n));
    t.(records := t.records[a := x.(earned := earned)],
       used := AddOwed(t.used, WeightOf(x), x.earned.next, n),
       credited := AddStatic(t.credited, WeightOf(x), total, snaps, x.earned.next, n))
  }

  /** The yield of a weight for up to `limit` snapshots, snapshot by snapshot. */
  method CalculateStatic(weight: nat, total: nat, a: Accumulator, snaps: seq<Snapshot>, limit: nat)
    returns (r: AccumulationRecord)
    requires TimesOrdered(snaps) && 1 <= a.next <= |snaps| && total > 0
    ensures r.next == Reach(a.next, limit, |snaps|)
    ensures r == RecordOf(StaticSum(weight, total, snaps, a.next, r.next), r.next)
  {
    var next := a.next;
    var accumulated := 0;
    var prevEnd := snaps[next - 1].end;
    while next < |snaps| && next < a.next + limit
      invariant a.next <= next <= Reach(a.next, limit, |snaps|)
      invariant prevEnd == snaps[next - 1].end
      invariant accumulated == StaticSum(weight, total, snaps, a.next, next)
    {
      hide StaticShare, RateTime, Interest;
      var snapshot := snaps[next];
      var paid := Interest(snapshot.borrowed, RateTime(snapshot.rate, snapshot.end - prevEnd));
      accumulated := accumulated + StaticShare(paid + snapshot.distribution * TWO_128, weight, total);
      prevEnd := snapshot.end;
      next := next + 1;
    }
    r := AccumulationRecord(accumulated / TWO_128, accumulated % TWO_128, next);
  }

  lemma StaticShareAdds(credited: nat, pot: nat, used: nat, weight: nat, total: nat)
    requires total > 0 && credited * total <= pot * used
    ensures (credited + StaticShare(pot, weight, total)) * total <= pot * (used + weight)
  {
    var s := StaticShare(pot, weight, total);
    DivBounds(pot * weight, total);
    assert s * total <= pot * weight;
    assert (credited + s) * total == credited * total + s * total;
    assert pot * (used + weight) == pot * used + pot * weight;
  }

  lemma AccrueStaticHistory(t: StaticSide, snaps: seq<Snapshot>, w: Weights, a: Account, limit: nat)
    requires a in t.records && ValidWeights(w) && TimesOrdered(snaps) && SoundRecord(t.records[a], |snaps|)
    requires StaticHistory(t, snaps, w)
    ensures StaticHistory(AccrueStatic(t, snaps, w.total, a, limit), snaps, w)
  {
    var x, r := t.records[a], AccrueStatic(t, snaps, w.total, a, limit);
    hide StaticSum, StaticShare, Yield;
    forall j | 1 <= j < |snaps| ensures WeightAt(r, w, j) && StaticCreditAt(r, snaps, w, j) {
      assert WeightAt(t, w, j) && StaticCreditAt(t, snaps, w, j);
      SumUpdate(t.records, Waiting(j), a, r.records[a]);
      StaticShareAdds(t.credited[j], Yield(snaps, j), t.used[j], WeightOf(x), w.total);
      hide SumBy;
    }
  }

  /** Crediting yield keeps the invariant. */
  lemma AccrueStaticKeeps(t: StaticSide, snaps: seq<Snapshot>, w: Weights, a: Account, limit: nat)
    requires StaticInv(t, snaps, w) && a in t.records
    ensures SoundRecord(t.records[a], |snaps|)
    ensures StaticInv(AccrueStatic(t, snaps, w.total, a, limit), snaps, w)
  {
    var x, r := t.records[a], AccrueStatic(t, snaps, w.total, a, limit);
    var n := Reach(x.earned.next, limit, |snaps|);
    var sum := StaticSum(WeightOf(x), w.total, snaps, x.earned.next, n);
    AccrueStaticHistory(t, snaps, w, a, limit);
    AccumulateExact(x.earned, sum, n);
    StaticUpTo(t.credited, WeightOf(x), w.total, snaps, x.earned.next, n, |snaps|);
    assert t.credited[..|snaps|] == t.credited && r.credited[..|snaps|] == r.credited;
    SumUpdate(t.records, EarnedStatic(), a, r.records[a]);
    SumUpdate(t.records, Weight(), a, r.records[a]);
    hide SumBy, StaticHistory, Total, AddOwed, AddStatic, StaticSum, Accumulate, ReceiptsTotal;
  }

  // ---- Fees and withdrawals ----

  function Adjusted(t: StaticSide, a: Account, total: nat): (r: map<Account, StaticRecord>)
    requires a in t.records
  {
    t.records[a := t.records[a].(earned := t.records[a].earned.(total := total))]
  }

  /** The protocol's account takes a fee. */
  function Receive(t: StaticSide, a: Account, amount: nat): (r: StaticSide)
    requires a in t.records
  {
    t.(records := Adjusted(t, a, t.records[a].earned.total + amount), received := t.received + amount)
  }

  /** `None` if the account asks for more than it has. */
  function Withdraw(t: StaticSide, a: Account, amount: nat): (r: Option<StaticSide>) {
    if a !in t.records || t.records[a].earned.total < amount then None
    else Some(t.(records := Adjusted(t, a, t.records[a].earned.total - amount),
                 withdrawn := t.withdrawn + amount, pending := t.pending + [Receipt(a, amount)]))
  }

  function SettleWithdrawal(t: StaticSide, k: nat, success: bool): (r: Option<StaticSide>)
    requires k < |t.pending|
  {
    var a, amount, rest := t.pending[k].account, t.pending[k].amount, RemoveAt(t.pending, k);
    if success then Some(t.(pending := rest))
    else if a !in t.records || t.withdrawn < amount then None
    else Some(t.(records := Adjusted(t, a, t.records[a].earned.total + amount),
                 withdrawn := t.withdrawn - amount, pending := rest))
  }

  lemma AdjustedSums(t: StaticSide, a: Account, total: nat)
    requires a in t.records
    ensures SumBy(Adjusted(t, a, total), EarnedStatic()) + t.records[a].earned.total * TWO_128
            == SumBy(t.records, EarnedStatic()) + total * TWO_128
    ensures SumBy(Adjusted(t, a, total), Weight()) == SumBy(t.records, Weight())
    ensures forall j :: SumBy(Adjusted(t, a, total), Waiting(j)) == SumBy(t.records, Waiting(j))
  {
    hide SumBy;
    var x := t.records[a].(earned := t.records[a].earned.(total := total));
    SumUpdate(t.records, EarnedStatic(), a, x);
    SumUpdate(t.records, Weight(), a, x);
    forall j ensures SumBy(Adjusted(t, a, total), Waiting(j)) == SumBy(t.records, Waiting(j)) {
      SumUpdate(t.records, Waiting(j), a, x);
    }
  }

  lemma AdjustedKeeps(t: StaticSide, u: StaticSide, snaps: seq<Snapshot>, w: Weights, a: Account, total: nat)
    requires StaticInv(t, snaps, w) && a in t.records && u.records == Adjusted(t, a, total)
    requires u.used == t.used && u.credited == t.credited && ReceiptsTotal(u.pending) <= u.withdrawn
    requires total + u.withdrawn + t.received == t.records[a].earned.total + t.withdrawn + u.received
    ensures StaticInv(u, snaps, w)
  {
    AdjustedSums(t, a, total);
    hide SumBy, Yield, Total, ReceiptsTotal;
    forall j | 1 <= j < |snaps| ensures WeightAt(u, w, j) && StaticCreditAt(u, snaps, w, j) {
      assert WeightAt(t, w, j) && StaticCreditAt(t, snaps, w, j);
    }
    hide WeightAt, StaticCreditAt;
  }

  lemma ReceiveKeeps(t: StaticSide, snaps: seq<Snapshot>, w: Weights, a: Account, amount: nat)
    requires StaticInv(t, snaps, w) && a in t.records
    ensures StaticInv(Receive(t, a, amount), snaps, w)
  {
    assert StaticBooks(t);
    hide StaticInv, ReceiptsTotal;
    AdjustedKeeps(t, Receive(t, a, amount), snaps, w, a, t.records[a].earned.total + amount);
  }

  lemma WithdrawKeeps(t: StaticSide, snaps: seq<Snapshot>, w: Weights, a: Account, amount: nat)
    requires StaticInv(t, snaps, w) && Withdraw(t, a, amount).Some?
    ensures StaticInv(Withdraw(t, a, amount).value, snaps, w)
  {
    assert StaticBooks(t);
    hide StaticInv, ReceiptsTotal;
    ReceiptAdded(t.pending, Receipt(a, amount), a);
    AdjustedKeeps(t, Withdraw(t, a, amount).value, snaps, w, a, t.records[a].earned.total - amount);
  }

  lemma SettleWithdrawalKeeps(t: StaticSide, snaps: seq<Snapshot>, w: Weights, k: nat, success: bool)
    requires StaticInv(t, snaps, w) && k < |t.pending|
    ensures SettleWithdrawal(t, k, success).None? <==> !success && t.pending[k].account !in t.records
    ensures SettleWithdrawal(t, k, success).Some? ==> StaticInv(SettleWithdrawal(t, k, success).value, snaps, w)
  {
    var a, amount := t.pending[k].account, t.pending[k].amount;
    assert StaticBooks(t);
    ReceiptRemoved(t.pending, k, a);
    hide ReceiptsTotal, RemoveAt;
    if success {
      var u := SettleWithdrawal(t, k, success).value;
      hide SumBy, Yield, Total;
      forall j | 1 <= j < |snaps| ensures WeightAt(u, w, j) && StaticCreditAt(u, snaps, w, j) {
        assert WeightAt(t, w, j) && StaticCreditAt(t, snaps, w, j);
      }
      hide WeightAt, StaticCreditAt;
    } else if a in t.records {
      hide StaticInv;
      AdjustedKeeps(t, SettleWithdrawal(t, k, success).value, snaps, w, a, t.records[a].earned.total + amount);
    }
  }

  // ---- Finalizing a snapshot ----

  function Lengthened(t: StaticSide): (r: StaticSide) {
    t.(used := t.used + [0], credited := t.credited + [0])
  }

  lemma LengthenedKeeps(t: StaticSide, snaps: seq<Snapshot>, w: Weights, snap: Snapshot)
    requires StaticInv(t, snaps, w) && |snaps| < U32_MAX && snaps[|snaps| - 1].end <= snap.end
    ensures StaticInv(Lengthened(t), snaps + [snap], w)
  {
    var u, all, count := Lengthened(t), snaps + [snap], |snaps|;
    assert TimesOrdered(all);
    SumEqual(t.records, Weight(), Waiting(count));
    forall j | 1 <= j < |all| ensures WeightAt(u, w, j) && StaticCreditAt(u, all, w, j) {
      if j < count {
        assert WeightAt(t, w, j) && StaticCreditAt(t, snaps, w, j);
        assert Yield(all, j) == Yield(snaps, j);
      }
      hide SumBy, Waiting, Yield;
    }
    hide SumBy, WeightAt, StaticCreditAt, ReceiptsTotal;
  }
}
