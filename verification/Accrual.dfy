/**
 Interest and yield accrual over finalized snapshots: the accumulator with its
 128-bit fraction, the amounts charged and credited per snapshot, and why
 accruing in batches comes to the same as accruing at once.
 */
module Accrual {
  import opened Arith
  import opened FixedPoint

  /** The length of a millisecond in years, as a `Decimal`. */
  const YEAR_PER_MS: nat := 0x22D7_9641_40FC_AB61_4AE4_B2B5

  // ---- Accumulator ----

  datatype Accumulator = Accumulator(total: nat, fraction: nat, next: nat)

  datatype AccumulationRecord = AccumulationRecord(amount: nat, fraction: nat, next: nat)

  /** What has been accumulated, in units of `2^-128`. */
  function Exact(a: Accumulator): (r: nat) {
    a.total * TWO_128 + a.fraction
  }

  /** A `Decimal` sum split into whole amount and fraction. */
  function RecordOf(sum: nat, next: nat): (r: AccumulationRecord) {
    AccumulationRecord(sum / TWO_128, sum % TWO_128, next)
  }

  /** Adds a record; a carry out of the 128-bit fraction goes to the total. */
  function Accumulate(a: Accumulator, r: AccumulationRecord): (s: Accumulator)
    requires a.fraction < TWO_128 && r.fraction < TWO_128
  {
    var sum := a.fraction + r.fraction;
    if sum >= TWO_128 then Accumulator(a.total + (r.amount + 1), sum - TWO_128, r.next)
    else Accumulator(a.total + r.amount, sum, r.next)
  }

  /** Nothing is lost in the split or in the carry. */
  lemma AccumulateExact(a: Accumulator, sum: nat, next: nat)
    requires a.fraction < TWO_128
    ensures var s := Accumulate(a, RecordOf(sum, next));
            Exact(s) == Exact(a) + sum && s.fraction < TWO_128 && s.next == next
  {}

  /** Total and fraction are determined by their exact sum. */
  lemma ExactDetermines(a: Accumulator, b: Accumulator)
    requires Exact(a) == Exact(b) && a.fraction < TWO_128 && b.fraction < TWO_128 && a.next == b.next
    ensures a == b
  {}

  // ---- Snapshots ----

  datatype Snapshot = Snapshot(end: nat, active: nat, borrowed: nat, distribution: nat, rate: nat)

  /** Block time never runs backwards. */
  ghost predicate TimesOrdered(snaps: seq<Snapshot>) {
    forall i, j :: 0 <= i <= j < |snaps| ==> snaps[i].end <= snaps[j].end
  }

  function Duration(snaps: seq<Snapshot>, i: nat): (d: nat)
    requires 1 <= i < |snaps| && TimesOrdered(snaps)
  {
    snaps[i].end - snaps[i - 1].end
  }

  /** Rate times duration, the factor by which a principal is charged. */
  function Charge(snaps: seq<Snapshot>, i: nat): (k: nat)
    requires 1 <= i < |snaps| && TimesOrdered(snaps)
  {
    RateTime(snaps[i].rate, Duration(snaps, i))
  }

  function RateTime(rate: nat, duration: nat): (k: nat) {
    MulNat(rate, duration);
    rate * duration * YEAR_PER_MS
  }

  /** `principal * rate * duration`, rounded down to `2^-128`. */
  function Interest(principal: nat, charge: nat): (r: nat) {
    MulNat(principal, charge);
    principal * charge / TWO_128
  }

  /** The last snapshot index a call with this limit reaches. */
  function Reach(next: nat, limit: nat, count: nat): (n: nat)
    ensures next <= count ==> next <= n <= count
  {
    Max(next, Min(next + limit, count))
  }

  // ---- Interest ----

  /** Interest on a principal over the snapshots `from..to`. */
  function InterestSum(principal: nat, snaps: seq<Snapshot>, from: nat, upTo: nat): (r: nat)
    requires TimesOrdered(snaps) && 1 <= from && (from < upTo ==> upTo <= |snaps|)
    decreases upTo
  {
    if from >= upTo then 0
    else InterestSum(principal, snaps, from, upTo - 1) + Interest(principal, Charge(snaps, upTo - 1))
  }

  lemma {:induction false} InterestSumSplit(principal: nat, snaps: seq<Snapshot>, from: nat, mid: nat, upTo: nat)
    requires TimesOrdered(snaps) && 1 <= from <= mid <= upTo <= |snaps|
    ensures InterestSum(principal, snaps, from, upTo)
            == InterestSum(principal, snaps, from, mid) + InterestSum(principal, snaps, mid, upTo)
    decreases upTo
  {
    if mid < upTo {
      InterestSumSplit(principal, snaps, from, mid, upTo - 1);
    }
  }

  /** `accumulate_interest_partial` on an accumulator whose principal is fixed. */
  function AccrueInterest(a: Accumulator, principal: nat, snaps: seq<Snapshot>, limit: nat): (r: Accumulator)
    requires TimesOrdered(snaps) && 1 <= a.next <= |snaps| && a.fraction < TWO_128
  {
    var n := Reach(a.next, limit, |snaps|);
    Accumulate(a, RecordOf(InterestSum(principal, snaps, a.next, n), n))
  }

  lemma AccrueInterestExact(a: Accumulator, principal: nat, snaps: seq<Snapshot>, limit: nat)
    requires TimesOrdered(snaps) && 1 <= a.next <= |snaps| && a.fraction < TWO_128
    ensures var r := AccrueInterest(a, principal, snaps, limit);
            && r.next == Reach(a.next, limit, |snaps|) && a.next <= r.next <= |snaps| && r.fraction < TWO_128
            && Exact(r) == Exact(a) + InterestSum(principal, snaps, a.next, r.next)
  {
    var n := Reach(a.next, limit, |snaps|);
    AccumulateExact(a, InterestSum(principal, snaps, a.next, n), n);
  }

  /** Two calls do what one call with both limits does. */
  lemma AccrueInterestTwice(a: Accumulator, principal: nat, snaps: seq<Snapshot>, m: nat, n: nat)
    requires TimesOrdered(snaps) && 1 <= a.next <= |snaps| && a.fraction < TWO_128
    ensures var b := AccrueInterest(a, principal, snaps, m);
            && 1 <= b.next <= |snaps| && b.fraction < TWO_128
            && AccrueInterest(b, principal, snaps, n) == AccrueInterest(a, principal, snaps, m + n)
  {
    hide AccrueInterest, InterestSum, Exact;
    var b := AccrueInterest(a, principal, snaps, m);
    AccrueInterestExact(a, principal, snaps, m);
    AccrueInterestExact(a, principal, snaps, m + n);
    AccrueInterestExact(b, principal, snaps, n);
    var c, d := AccrueInterest(b, principal, snaps, n), AccrueInterest(a, principal, snaps, m + n);
    InterestSumSplit(principal, snaps, a.next, b.next, d.next);
    ExactDetermines(c, d);
  }

  function Total(limits: seq<nat>): (r: nat) {
    if limits == [] then 0 else Total(limits[..|limits| - 1]) + limits[|limits| - 1]
  }

  function AccrueInterestInBatches(a: Accumulator, principal: nat, snaps: seq<Snapshot>, limits: seq<nat>)
    : (r: Accumulator)
    requires TimesOrdered(snaps) && 1 <= a.next <= |snaps| && a.fraction < TWO_128
    ensures 1 <= r.next <= |snaps| && r.fraction < TWO_128
    ensures r == AccrueInterest(a, principal, snaps, Total(limits))
  {
    if limits == [] then
      AccrueInterestNothing(a, principal, snaps);
      a
    else
      var init, last := limits[..|limits| - 1], limits[|limits| - 1];
      AccrueInterestTwice(a, principal, snaps, Total(init), last);
      AccrueInterestExact(a, principal, snaps, Total(limits));
      AccrueInterest(AccrueInterestInBatches(a, principal, snaps, init), principal, snaps, last)
  }

  lemma AccrueInterestNothing(a: Accumulator, principal: nat, snaps: seq<Snapshot>)
    requires TimesOrdered(snaps) && 1 <= a.next <= |snaps| && a.fraction < TWO_128
    ensures AccrueInterest(a, principal, snaps, 0) == a
  {
    AccrueInterestExact(a, principal, snaps, 0);
    ExactDetermines(AccrueInterest(a, principal, snaps, 0), a);
  }

  /** Limits beyond the end of the list are all alike. */
  lemma AccrueInterestBeyond(a: Accumulator, principal: nat, snaps: seq<Snapshot>, m: nat, n: nat)
    requires TimesOrdered(snaps) && 1 <= a.next <= |snaps| && a.fraction < TWO_128
    requires a.next + m >= |snaps| && a.next + n >= |snaps|
    ensures AccrueInterest(a, principal, snaps, m) == AccrueInterest(a, principal, snaps, n)
  {
    hide InterestSum, Accumulate;
  }

  /** However interest is accrued in batches, once all snapshots are covered the
      accumulator is the one a single unlimited call gives. */
  lemma InterestIgnoresBatching(a: Accumulator, principal: nat, snaps: seq<Snapshot>, limits: seq<nat>)
    requires TimesOrdered(snaps) && 1 <= a.next <= |snaps| <= U32_MAX && a.fraction < TWO_128
    requires a.next + Total(limits) >= |snaps|
    ensures AccrueInterestInBatches(a, principal, snaps, limits) == AccrueInterest(a, principal, snaps, U32_MAX)
  {
    hide AccrueInterest, AccrueInterestInBatches, Total;
    AccrueInterestBeyond(a, principal, snaps, Total(limits), U32_MAX);
  }

  /** A call made when the list had `count` snapshots. */
  datatype Batch = Batch(count: nat, limit: nat)

  /** Calls made while the list grows to `count` snapshots, by an accumulator that starts
      at `next`. */
  ghost predicate Growing(batches: seq<Batch>, next: nat, count: nat) {
    && (forall i :: 0 <= i < |batches| ==> next <= batches[i].count <= count)
    && (forall i, j :: 0 <= i < j < |batches| ==> batches[i].count <= batches[j].count)
  }

  lemma {:induction false} InterestSumOfPrefix(principal: nat, snaps: seq<Snapshot>, m: nat, from: nat, upTo: nat)
    requires TimesOrdered(snaps) && upTo <= m <= |snaps| && 1 <= from
    ensures InterestSum(principal, snaps[..m], from, upTo) == InterestSum(principal, snaps, from, upTo)
    decreases upTo
  {
    if from < upTo {
      InterestSumOfPrefix(principal, snaps, m, from, upTo - 1);
      assert Charge(snaps[..m], upTo - 1) == Charge(snaps, upTo - 1);
      hide Charge, Interest;
    }
  }

  /** A call on the shorter list is a call with a lower limit on the longer one. */
  lemma AccrueInterestOnPrefix(a: Accumulator, principal: nat, snaps: seq<Snapshot>, m: nat, limit: nat)
    requires TimesOrdered(snaps) && 1 <= a.next <= m <= |snaps| && a.fraction < TWO_128
    ensures AccrueInterest(a, principal, snaps[..m], limit)
            == AccrueInterest(a, principal, snaps, Reach(a.next, limit, m) - a.next)
  {
    var n := Reach(a.next, limit, m);
    InterestSumOfPrefix(principal, snaps, m, a.next, n);
    assert Reach(a.next, n - a.next, |snaps|) == n;
    hide InterestSum, Accumulate;
  }

  /** The accumulator after calls between which snapshots were appended. */
  ghost function AccrueInterestAsItGrows(a: Accumulator, principal: nat, snaps: seq<Snapshot>, batches: seq<Batch>)
    : (r: Accumulator)
    requires TimesOrdered(snaps) && 1 <= a.next <= |snaps| && a.fraction < TWO_128
    requires Growing(batches, a.next, |snaps|)
    ensures a.next <= r.next <= (if batches == [] then a.next else batches[|batches| - 1].count)
    ensures r.fraction < TWO_128
    decreases |batches|
  {
    if batches == [] then a
    else
      var last := batches[|batches| - 1];
      var b := AccrueInterestAsItGrows(a, principal, snaps, batches[..|batches| - 1]);
      AccrueInterestExact(b, principal, snaps[..last.count], last.limit);
      AccrueInterest(b, principal, snaps[..last.count], last.limit)
  }

  /** It only matters how far the calls got. */
  lemma {:induction false} InterestReached(a: Accumulator, principal: nat, snaps: seq<Snapshot>, batches: seq<Batch>)
    requires TimesOrdered(snaps) && 1 <= a.next <= |snaps| && a.fraction < TWO_128
    requires Growing(batches, a.next, |snaps|)
    ensures var r := AccrueInterestAsItGrows(a, principal, snaps, batches);
            r == AccrueInterest(a, principal, snaps, r.next - a.next)
    decreases |batches|
  {
    hide AccrueInterest;
    if batches == [] {
      AccrueInterestNothing(a, principal, snaps);
    } else {
      var init, last := batches[..|batches| - 1], batches[|batches| - 1];
      InterestReached(a, principal, snaps, init);
      var b := AccrueInterestAsItGrows(a, principal, snaps, init);
      AccrueInterestOnPrefix(b, principal, snaps, last.count, last.limit);
      AccrueInterestExact(b, principal, snaps[..last.count], last.limit);
      AccrueInterestTwice(a, principal, snaps, b.next - a.next, Reach(b.next, last.limit, last.count) - b.next);
    }
  }

  /** However interest is accrued in batches while snapshots are appended, the
      accumulator is the one a single unlimited call at the end gives, if and only if it
      got to the end. */
  lemma InterestIgnoresGrowth(a: Accumulator, principal: nat, snaps: seq<Snapshot>, batches: seq<Batch>)
    requires TimesOrdered(snaps) && 1 <= a.next <= |snaps| <= U32_MAX && a.fraction < TWO_128
    requires Growing(batches, a.next, |snaps|)
    ensures var r := AccrueInterestAsItGrows(a, principal, snaps, batches);
            r == AccrueInterest(a, principal, snaps, U32_MAX) <==> r.next == |snaps|
  {
    hide AccrueInterest, AccrueInterestAsItGrows;
    InterestReached(a, principal, snaps, batches);
    AccrueInterestExact(a, principal, snaps, U32_MAX);
    AccrueInterestBeyond(a, principal, snaps, |snaps| - a.next, U32_MAX);
  }

  // ---- Yield ----

  datatype Incoming = Incoming(at: nat, amount: nat)

  datatype Weights = Weights(supply: nat, total: nat)

  ghost predicate ValidWeights(w: Weights) {
    0 < w.supply <= w.total
  }

  /** What suppliers and static accounts share for a snapshot: the interest figure
      plus what was distributed. */
  function Yield(snaps: seq<Snapshot>, i: nat): (r: nat)
    requires 1 <= i < |snaps| && TimesOrdered(snaps)
  {
    Interest(snaps[i].borrowed, Charge(snaps, i)) + snaps[i].distribution * TWO_128
  }

  /** A supplier's part, pro rata to the active deposit. */
  function Share(pot: nat, amount: nat, active: nat, w: Weights): (r: nat)
    requires w.total > 0
  {
    if active == 0 then 0 else
      MulNat(pot, amount);
      MulNat(pot * amount, w.supply);
      pot * amount * w.supply / active / w.total
  }

  /** The amounts that become active by snapshot `i`: the leading entries of the
      incoming list with an activation index up to `i`. */
  function ActivatedBy(incoming: seq<Incoming>, i: nat): (r: nat) {
    if incoming == [] || incoming[0].at > i then 0 else incoming[0].amount + ActivatedBy(incoming[1..], i)
  }

  function StillIncoming(incoming: seq<Incoming>, i: nat): (r: seq<Incoming>) {
    if incoming == [] || incoming[0].at > i then incoming else StillIncoming(incoming[1..], i)
  }

  lemma {:induction false} ActivateTwice(incoming: seq<Incoming>, i: nat, j: nat)
    requires i <= j
    ensures ActivatedBy(incoming, i) + ActivatedBy(StillIncoming(incoming, i), j) == ActivatedBy(incoming, j)
    ensures StillIncoming(StillIncoming(incoming, i), j) == StillIncoming(incoming, j)
    decreases |incoming|
  {
    if incoming != [] && incoming[0].at <= i {
      ActivateTwice(incoming[1..], i, j);
    }
  }

  function YieldSum(active: nat, incoming: seq<Incoming>, snaps: seq<Snapshot>, w: Weights, from: nat, upTo: nat)
    : (r: nat)
    requires TimesOrdered(snaps) && 1 <= from && (from < upTo ==> upTo <= |snaps|) && w.total > 0
    decreases upTo
  {
    if from >= upTo then 0
    else
      YieldSum(active, incoming, snaps, w, from, upTo - 1)
      + Share(Yield(snaps, upTo - 1), active + ActivatedBy(incoming, upTo - 1), snaps[upTo - 1].active, w)
  }

  lemma {:induction false} YieldSumSplit(active: nat, incoming: seq<Incoming>, snaps: seq<Snapshot>, w: Weights,
                                         from: nat, mid: nat, upTo: nat)
    requires TimesOrdered(snaps) && 1 <= from <= mid <= upTo <= |snaps| && w.total > 0
    ensures YieldSum(active, incoming, snaps, w, from, upTo)
            == YieldSum(active, incoming, snaps, w, from, mid) + YieldSum(active, incoming, snaps, w, mid, upTo)
    decreases upTo
  {
    if mid < upTo {
      YieldSumSplit(active, incoming, snaps, w, from, mid, upTo - 1);
    }
  }

  /** Activating what is due at `mid` does not change the amounts used from there on. */
  lemma {:induction false} YieldSumActivated(active: nat, incoming: seq<Incoming>, snaps: seq<Snapshot>, w: Weights,
                                             mid: nat, upTo: nat)
    requires TimesOrdered(snaps) && 1 <= mid <= upTo <= |snaps| && w.total > 0
    ensures YieldSum(active + ActivatedBy(incoming, mid), StillIncoming(incoming, mid), snaps, w, mid, upTo)
            == YieldSum(active, incoming, snaps, w, mid, upTo)
    decreases upTo
  {
    if mid < upTo {
      YieldSumActivated(active, incoming, snaps, w, mid, upTo - 1);
      ActivateTwice(incoming, mid, upTo - 1);
    }
  }

  datatype SupplyPosition = SupplyPosition(started: Option<nat>, active: nat, incoming: seq<Incoming>,
                                           outgoing: nat, earned: Accumulator)

  /** What a position holds at snapshot `i`. */
  function AmountAt(p: SupplyPosition, i: nat): (r: nat) {
    p.active + ActivatedBy(p.incoming, i)
  }

  /** `accumulate_yield_partial`. */
  function AccrueYield(p: SupplyPosition, snaps: seq<Snapshot>, w: Weights, limit: nat): (r: SupplyPosition)
    requires TimesOrdered(snaps) && 1 <= p.earned.next <= |snaps| && p.earned.fraction < TWO_128 && w.total > 0
  {
    var n := Reach(p.earned.next, limit, |snaps|);
    p.(active := AmountAt(p, n),
       incoming := StillIncoming(p.incoming, n),
       earned := Accumulate(p.earned, RecordOf(YieldSum(p.active, p.incoming, snaps, w, p.earned.next, n), n)))
  }

  lemma AccrueYieldExact(p: SupplyPosition, snaps: seq<Snapshot>, w: Weights, limit: nat)
    requires TimesOrdered(snaps) && 1 <= p.earned.next <= |snaps| && p.earned.fraction < TWO_128 && w.total > 0
    ensures var r := AccrueYield(p, snaps, w, limit);
            && r.earned.next == Reach(p.earned.next, limit, |snaps|)
            && p.earned.next <= r.earned.next <= |snaps| && r.earned.fraction < TWO_128
            && Exact(r.earned) == Exact(p.earned)
                                  + YieldSum(p.active, p.incoming, snaps, w, p.earned.next, r.earned.next)
            && r.active == AmountAt(p, r.earned.next)
            && r.incoming == StillIncoming(p.incoming, r.earned.next)
            && r.outgoing == p.outgoing && r.started == p.started
  {
    var n := Reach(p.earned.next, limit, |snaps|);
    AccumulateExact(p.earned, YieldSum(p.active, p.incoming, snaps, w, p.earned.next, n), n);
  }

  /** Two calls do what one call with both limits does, also with deposits that
      activate in between. */
  lemma AccrueYieldTwice(p: SupplyPosition, snaps: seq<Snapshot>, w: Weights, m: nat, n: nat)
    requires TimesOrdered(snaps) && 1 <= p.earned.next <= |snaps| && p.earned.fraction < TWO_128 && w.total > 0
    ensures var q := AccrueYield(p, snaps, w, m);
            && 1 <= q.earned.next <= |snaps| && q.earned.fraction < TWO_128
            && AccrueYield(q, snaps, w, n) == AccrueYield(p, snaps, w, m + n)
  {
    hide AccrueYield, YieldSum, Exact, ActivatedBy, StillIncoming;
    var q := AccrueYield(p, snaps, w, m);
    AccrueYieldExact(p, snaps, w, m);
    AccrueYieldExact(p, snaps, w, m + n);
    AccrueYieldExact(q, snaps, w, n);
    var r, s := AccrueYield(q, snaps, w, n), AccrueYield(p, snaps, w, m + n);
    var from, mid, upTo := p.earned.next, q.earned.next, s.earned.next;
    YieldSumSplit(p.active, p.incoming, snaps, w, from, mid, upTo);
    YieldSumActivated(p.active, p.incoming, snaps, w, mid, upTo);
    ActivateTwice(p.incoming, mid, upTo);
    ExactDetermines(r.earned, s.earned);
  }

  function AccrueYieldInBatches(p: SupplyPosition, snaps: seq<Snapshot>, w: Weights, limits: seq<nat>)
    : (r: SupplyPosition)
    requires TimesOrdered(snaps) && 1 <= p.earned.next <= |snaps| && p.earned.fraction < TWO_128 && w.total > 0
    requires limits != []
    ensures 1 <= r.earned.next <= |snaps| && r.earned.fraction < TWO_128
    ensures r == AccrueYield(p, snaps, w, Total(limits))
  {
    var init, last := limits[..|limits| - 1], limits[|limits| - 1];
    AccrueYieldExact(p, snaps, w, Total(limits));
    if init == [] then
      AccrueYield(p, snaps, w, last)
    else
      AccrueYieldTwice(p, snaps, w, Total(init), last);
      AccrueYield(AccrueYieldInBatches(p, snaps, w, init), snaps, w, last)
  }

  lemma AccrueYieldBeyond(p: SupplyPosition, snaps: seq<Snapshot>, w: Weights, m: nat, n: nat)
    requires TimesOrdered(snaps) && 1 <= p.earned.next <= |snaps| && p.earned.fraction < TWO_128 && w.total > 0
    requires p.earned.next + m >= |snaps| && p.earned.next + n >= |snaps|
    ensures AccrueYield(p, snaps, w, m) == AccrueYield(p, snaps, w, n)
  {
    hide YieldSum, Accumulate, ActivatedBy, StillIncoming;
  }

  /** However yield is accrued in batches, once all snapshots are covered the
      position (total, fraction, next index, active amount and incoming list) is
      the one a single unlimited call gives. */
  lemma YieldIgnoresBatching(p: SupplyPosition, snaps: seq<Snapshot>, w: Weights, limits: seq<nat>)
    requires TimesOrdered(snaps) && 1 <= p.earned.next <= |snaps| <= U32_MAX
    requires p.earned.fraction < TWO_128 && w.total > 0
    requires limits != [] && p.earned.next + Total(limits) >= |snaps|
    ensures AccrueYieldInBatches(p, snaps, w, limits) == AccrueYield(p, snaps, w, U32_MAX)
  {
    hide AccrueYield, AccrueYieldInBatches, Total;
    AccrueYieldBeyond(p, snaps, w, Total(limits), U32_MAX);
  }

  lemma {:induction false} YieldSumOfPrefix(active: nat, incoming: seq<Incoming>, snaps: seq<Snapshot>, w: Weights,
                                            m: nat, from: nat, upTo: nat)
    requires TimesOrdered(snaps) && upTo <= m <= |snaps| && 1 <= from && w.total > 0
    ensures YieldSum(active, incoming, snaps[..m], w, from, upTo) == YieldSum(active, incoming, snaps, w, from, upTo)
    decreases upTo
  {
    if from < upTo {
      YieldSumOfPrefix(active, incoming, snaps, w, m, from, upTo - 1);
      assert Yield(snaps[..m], upTo - 1) == Yield(snaps, upTo - 1);
      hide Yield, Share, ActivatedBy;
    }
  }

  lemma AccrueYieldOnPrefix(p: SupplyPosition, snaps: seq<Snapshot>, w: Weights, m: nat, limit: nat)
    requires TimesOrdered(snaps) && 1 <= p.earned.next <= m <= |snaps| && p.earned.fraction < TWO_128 && w.total > 0
    ensures AccrueYield(p, snaps[..m], w, limit)
            == AccrueYield(p, snaps, w, Reach(p.earned.next, limit, m) - p.earned.next)
  {
    var n := Reach(p.earned.next, limit, m);
    YieldSumOfPrefix(p.active, p.incoming, snaps, w, m, p.earned.next, n);
    assert Reach(p.earned.next, n - p.earned.next, |snaps|) == n;
    hide YieldSum, Accumulate, ActivatedBy, StillIncoming;
  }

  /** The position after calls between which snapshots were appended. */
  ghost function AccrueYieldAsItGrows(p: SupplyPosition, snaps: seq<Snapshot>, w: Weights, batches: seq<Batch>)
    : (r: SupplyPosition)
    requires TimesOrdered(snaps) && 1 <= p.earned.next <= |snaps| && p.earned.fraction < TWO_128 && w.total > 0
    requires Growing(batches, p.earned.next, |snaps|)
    ensures p.earned.next <= r.earned.next <= (if batches == [] then p.earned.next else batches[|batches| - 1].count)
    ensures r.earned.fraction < TWO_128
    decreases |batches|
  {
    if batches == [] then p
    else
      var last := batches[|batches| - 1];
      var q := AccrueYieldAsItGrows(p, snaps, w, batches[..|batches| - 1]);
      AccrueYieldExact(q, snaps[..last.count], w, last.limit);
      AccrueYield(q, snaps[..last.count], w, last.limit)
  }

  /** It only matters how far the calls got. */
  lemma {:induction false} YieldReached(p: SupplyPosition, snaps: seq<Snapshot>, w: Weights, batches: seq<Batch>)
    requires TimesOrdered(snaps) && 1 <= p.earned.next <= |snaps| && p.earned.fraction < TWO_128 && w.total > 0
    requires Growing(batches, p.earned.next, |snaps|) && batches != []
    ensures var r := AccrueYieldAsItGrows(p, snaps, w, batches);
            r == AccrueYield(p, snaps, w, r.earned.next - p.earned.next)
    decreases |batches|
  {
    hide AccrueYield;
    var init, last := batches[..|batches| - 1], batches[|batches| - 1];
    var q := AccrueYieldAsItGrows(p, snaps, w, init);
    AccrueYieldOnPrefix(q, snaps, w, last.count, last.limit);
    AccrueYieldExact(q, snaps[..last.count], w, last.limit);
    if init != [] {
      YieldReached(p, snaps, w, init);
      AccrueYieldTwice(p, snaps, w, q.earned.next - p.earned.next,
                       Reach(q.earned.next, last.limit, last.count) - q.earned.next);
    }
  }

  /** However yield is accrued in batches while snapshots are appended, the position,
      incoming entries included, is the one a single unlimited call at the end gives, if
      and only if it got to the end. */
  lemma YieldIgnoresGrowth(p: SupplyPosition, snaps: seq<Snapshot>, w: Weights, batches: seq<Batch>)
    requires TimesOrdered(snaps) && 1 <= p.earned.next <= |snaps| <= U32_MAX
    requires p.earned.fraction < TWO_128 && w.total > 0
    requires Growing(batches, p.earned.next, |snaps|) && batches != []
    ensures var r := AccrueYieldAsItGrows(p, snaps, w, batches);
            r == AccrueYield(p, snaps, w, U32_MAX) <==> r.earned.next == |snaps|
  {
    hide AccrueYield, AccrueYieldAsItGrows;
    YieldReached(p, snaps, w, batches);
    AccrueYieldExact(p, snaps, w, U32_MAX);
    AccrueYieldBeyond(p, snaps, w, |snaps| - p.earned.next, U32_MAX);
  }

  // ---- No more is credited than there is ----

  /** One supplier's credit, scaled up, is covered by the part it is a floor of. */
  lemma ShareBound(pot: nat, amount: nat, active: nat, w: Weights)
    requires ValidWeights(w)
    ensures Share(pot, amount, active, w) * (active * w.total) <= pot * amount * w.supply
  {
    MulNat(pot, amount);
    MulNat(pot * amount, w.supply);
    if active > 0 {
      DivDiv(pot * amount * w.supply, active, w.total);
      DivBounds(pot * amount * w.supply, active * w.total);
    }
  }

  function SharesOf(pot: nat, amounts: seq<nat>, active: nat, w: Weights): (r: nat)
    requires w.total > 0
  {
    if amounts == [] then 0
    else SharesOf(pot, amounts[..|amounts| - 1], active, w) + Share(pot, amounts[|amounts| - 1], active, w)
  }

  lemma {:induction false} SharesBound(pot: nat, amounts: seq<nat>, active: nat, w: Weights)
    requires ValidWeights(w)
    ensures SharesOf(pot, amounts, active, w) * (active * w.total) <= pot * Total(amounts) * w.supply
    decreases |amounts|
  {
    if amounts != [] {
      var init, last := amounts[..|amounts| - 1], amounts[|amounts| - 1];
      SharesBound(pot, init, active, w);
      ShareBound(pot, last, active, w);
      hide Share;
      AddScaled(SharesOf(pot, init, active, w), Share(pot, last, active, w), active * w.total,
                pot, Total(init), last, w.supply);
    }
  }

  lemma AddScaled(x: nat, y: nat, scale: nat, pot: nat, a: nat, b: nat, w: nat)
    requires x * scale <= pot * a * w && y * scale <= pot * b * w
    ensures (x + y) * scale <= pot * (a + b) * w
  {
    assert (x + y) * scale == x * scale + y * scale;
    assert pot * (a + b) == pot * a + pot * b;
    assert (pot * a + pot * b) * w == pot * a * w + pot * b * w;
  }

  /** From the scaled bound to the supply-weight share of the pot. */
  lemma CreditWithinShare(credited: nat, pot: nat, used: nat, active: nat, w: Weights)
    requires ValidWeights(w) && used <= active && active > 0
    requires credited * (active * w.total) <= pot * used * w.supply
    ensures credited <= pot * w.supply / w.total
  {
    var full := pot * w.supply;
    assert pot * used * w.supply <= full * active by {
      MulMono(used, active, full);
      assert pot * used * w.supply == full * used;
    }
    assert (credited * w.total) * active <= full * active by {
      assert (credited * w.total) * active == credited * (active * w.total);
    }
    CancelScale(credited * w.total, full, active);
    DivAtLeast(full, w.total, credited);
  }

  lemma CancelScale(a: nat, b: nat, c: nat)
    requires c > 0 && a * c <= b * c
    ensures a <= b
  {
    ScaleLess(b, a, c);
  }

  /** For any number of suppliers whose amounts fit into the active deposit, the
      credits stay within the supply-weight share. */
  lemma SuppliersWithinShare(pot: nat, amounts: seq<nat>, active: nat, w: Weights)
    requires ValidWeights(w) && Total(amounts) <= active
    ensures SharesOf(pot, amounts, active, w) <= pot * w.supply / w.total
  {
    MulNat(pot, w.supply);
    if active > 0 {
      SharesBound(pot, amounts, active, w);
      CreditWithinShare(SharesOf(pot, amounts, active, w), pot, Total(amounts), active, w);
    } else {
      SharesOfNothing(pot, amounts, w);
    }
  }

  lemma {:induction false} SharesOfNothing(pot: nat, amounts: seq<nat>, w: Weights)
    requires w.total > 0
    ensures SharesOf(pot, amounts, 0, w) == 0
    decreases |amounts|
  {
    if amounts != [] {
      SharesOfNothing(pot, amounts[..|amounts| - 1], w);
    }
  }

  /** The static accounts' parts of a pot. */
  function StaticShares(pot: nat, weights: seq<nat>, total: nat): (r: nat)
    requires total > 0
  {
    if weights == [] then 0
    else
      MulNat(pot, weights[|weights| - 1]);
      StaticShares(pot, weights[..|weights| - 1], total) + pot * weights[|weights| - 1] / total
  }

  lemma {:induction false} StaticSharesBound(pot: nat, weights: seq<nat>, total: nat)
    requires total > 0
    ensures StaticShares(pot, weights, total) <= pot * Total(weights) / total
    decreases |weights|
  {
    if weights != [] {
      var init, last := weights[..|weights| - 1], weights[|weights| - 1];
      StaticSharesBound(pot, init, total);
      assert Total(weights) == Total(init) + last;
      hide Total;
      PotAdds(pot, Total(init), last, Total(weights), total);
    }
  }

  lemma PotAdds(pot: nat, a: nat, b: nat, c: nat, total: nat)
    requires total > 0 && c == a + b
    ensures pot * a >= 0 && pot * b >= 0 && pot * c >= 0
    ensures pot * a / total + pot * b / total <= pot * c / total
  {
    MulNat(pot, a);
    MulNat(pot, b);
    DivSum(pot * a, pot * b, total);
    assert pot * a + pot * b == pot * c;
  }

  /** Suppliers and static accounts together never receive more than the pot. */
  lemma PotCoversAll(pot: nat, amounts: seq<nat>, active: nat, supplyWeight: nat, staticWeights: seq<nat>)
    requires supplyWeight > 0 && Total(amounts) <= active
    ensures var w := Weights(supplyWeight, supplyWeight + Total(staticWeights));
            SharesOf(pot, amounts, active, w) + StaticShares(pot, staticWeights, w.total) <= pot
  {
    var rest := Total(staticWeights);
    var w := Weights(supplyWeight, supplyWeight + rest);
    SuppliersWithinShare(pot, amounts, active, w);
    StaticSharesBound(pot, staticWeights, w.total);
    hide SharesOf, StaticShares, Total;
    PotSplits(pot, supplyWeight, rest);
  }

  lemma PotSplits(pot: nat, a: nat, b: nat)
    requires a > 0
    ensures pot * a >= 0 && pot * b >= 0
    ensures pot * a / (a + b) + pot * b / (a + b) <= pot
  {
    MulNat(pot, a);
    MulNat(pot, b);
    DivSum(pot * a, pot * b, a + b);
    DivAtMost(pot * a + pot * b, a + b, pot);
  }

  function InterestsOf(principals: seq<nat>, charge: nat): (r: nat) {
    if principals == [] then 0
    else InterestsOf(principals[..|principals| - 1], charge) + Interest(principals[|principals| - 1], charge)
  }

  /** Borrowers together are charged at most the interest figure that suppliers
      share, and fall short of it by fewer units than there are borrowers. */
  lemma {:induction false} BorrowersCoverInterest(principals: seq<nat>, charge: nat)
    ensures InterestsOf(principals, charge) <= Interest(Total(principals), charge)
    ensures principals != [] ==>
              Interest(Total(principals), charge) < InterestsOf(principals, charge) + |principals|
    decreases |principals|
  {
    if principals != [] {
      var init, last := principals[..|principals| - 1], principals[|principals| - 1];
      BorrowersCoverInterest(init, charge);
      InterestAdds(Total(init), last, charge);
      if init == [] {
        assert Total(principals) == last;
      }
    }
  }

  lemma InterestAdds(p: nat, q: nat, charge: nat)
    ensures Interest(p, charge) + Interest(q, charge) <= Interest(p + q, charge)
    ensures Interest(p + q, charge) <= Interest(p, charge) + Interest(q, charge) + 1
    ensures Interest(0, charge) == 0
  {
    MulNat(p, charge);
    MulNat(q, charge);
    DivSum(p * charge, q * charge, TWO_128);
    assert p * charge + q * charge == (p + q) * charge;
  }

  // ---- The Decimal expressions behind the figures ----

  /** `principal * rate * duration * YEAR_PER_MS` as the borrow side writes it. */
  function InterestExpression(principal: nat, rate: Decimal, duration: nat): (r: Option<Decimal>)
    requires principal < TWO_128 && duration < TWO_128
  {
    var a := Mul(principal * TWO_128, rate);
    if a.None? then None else
      var b := Mul(a.value, duration * TWO_128);
      if b.None? then None else Mul(b.value, YEAR_PER_MS)
  }

  /** Whenever it does not overflow, it is the exact product rounded down once. */
  lemma InterestExpressionValue(principal: nat, rate: Decimal, duration: nat)
    requires principal < TWO_128 && duration < TWO_128
    requires InterestExpression(principal, rate, duration).Some?
    ensures InterestExpression(principal, rate, duration).value
            == Interest(principal, RateTime(rate, duration))
  {
    var a := Mul(principal * TWO_128, rate).value;
    MulByWhole(principal, rate);
    MulByWhole(duration, a);
    MulCommutes(a, duration * TWO_128);
    var b := Mul(a, duration * TWO_128).value;
    MulIsFloor(b, YEAR_PER_MS);
    assert b * YEAR_PER_MS == principal * (rate * duration * YEAR_PER_MS) by {
      MulAssoc(principal, rate, duration);
      MulAssoc(principal, rate * duration, YEAR_PER_MS);
    }
  }

  /** A supplier's credit as the supply side writes it. */
  function ShareExpression(pot: Decimal, amount: nat, active: nat, w: Weights): (r: Option<Decimal>) {
    var a := MulInt(pot, amount);
    if a.None? then None else
      var b := MulInt(a.value, w.supply);
      if b.None? then None else
        var c := DivInt(b.value, active);
        if c.None? then None else DivInt(c.value, w.total)
  }

  lemma ShareExpressionValue(pot: Decimal, amount: nat, active: nat, w: Weights)
    requires ShareExpression(pot, amount, active, w).Some?
    ensures active > 0 && w.total > 0
    ensures ShareExpression(pot, amount, active, w).value == Share(pot, amount, active, w)
  {}

  // ---- The source's loops ----

  method CalculateInterest(principal: nat, a: Accumulator, snaps: seq<Snapshot>, limit: nat)
    returns (r: AccumulationRecord)
    requires TimesOrdered(snaps) && 1 <= a.next <= |snaps|
    ensures r.next == Reach(a.next, limit, |snaps|)
    ensures r == RecordOf(InterestSum(principal, snaps, a.next, r.next), r.next)
  {
    var next := a.next;
    var accumulated := 0;
    var prevEnd := snaps[next - 1].end;
    while next < |snaps| && next < a.next + limit
      invariant a.next <= next <= Reach(a.next, limit, |snaps|)
      invariant prevEnd == snaps[next - 1].end
      invariant accumulated == InterestSum(principal, snaps, a.next, next)
    {
      var snapshot := snaps[next];
      var duration := snapshot.end - prevEnd;
      accumulated := accumulated + Interest(principal, RateTime(snapshot.rate, duration));
      prevEnd := snapshot.end;
      next := next + 1;
    }
    r := AccumulationRecord(accumulated / TWO_128, accumulated % TWO_128, next);
  }

  /** Activation indices rise strictly and lie above `above`. */
  ghost predicate Ordered(incoming: seq<Incoming>, above: nat) {
    && (forall k :: 0 <= k < |incoming| ==> incoming[k].at > above)
    && (forall k, l :: 0 <= k < l < |incoming| ==> incoming[k].at < incoming[l].at)
  }

  function Leading(incoming: seq<Incoming>, k: nat): (r: nat)
    requires k <= |incoming|
  {
    if k == 0 then 0 else Leading(incoming, k - 1) + incoming[k - 1].amount
  }

  lemma {:induction false} LeadingShift(incoming: seq<Incoming>, k: nat)
    requires 0 < k <= |incoming|
    ensures Leading(incoming, k) == incoming[0].amount + Leading(incoming[1..], k - 1)
  {
    if k > 1 {
      LeadingShift(incoming, k - 1);
    }
  }

  /** In a rising list, what is active by `i` is the leading part. */
  lemma {:induction false} LeadingActivated(incoming: seq<Incoming>, k: nat, i: nat)
    requires k <= |incoming|
    requires forall l :: 0 <= l < |incoming| ==> (incoming[l].at <= i <==> l < k)
    ensures ActivatedBy(incoming, i) == Leading(incoming, k)
    decreases |incoming|
  {
    if k > 0 {
      LeadingShift(incoming, k);
      LeadingActivated(incoming[1..], k - 1, i);
    }
  }

  lemma ShareOfNothing(pot: nat, amount: nat, w: Weights)
    requires w.total > 0
    ensures Share(pot, amount, 0, w) == 0
  {}

  /** The loop over snapshots with its inner loop over incoming deposits uses, at
      snapshot `i`, exactly the active amount plus all deposits activated by `i`. */
  method CalculateYield(p: SupplyPosition, snaps: seq<Snapshot>, w: Weights, limit: nat)
    returns (r: AccumulationRecord)
    requires TimesOrdered(snaps) && 1 <= p.earned.next <= |snaps| && w.total > 0
    requires Ordered(p.incoming, p.earned.next)
    ensures r.next == Reach(p.earned.next, limit, |snaps|)
    ensures r == RecordOf(YieldSum(p.active, p.incoming, snaps, w, p.earned.next, r.next), r.next)
  {
    var next := p.earned.next;
    var amount := p.active;
    var accumulated := 0;
    var nextIncoming := 0;
    var prevEnd := snaps[next - 1].end;
    hide Share, Interest, RateTime;
    while next < |snaps| && next < p.earned.next + limit
      invariant p.earned.next <= next <= Reach(p.earned.next, limit, |snaps|)
      invariant nextIncoming <= |p.incoming| && prevEnd == snaps[next - 1].end
      invariant forall l :: 0 <= l < |p.incoming| ==> (p.incoming[l].at < next <==> l < nextIncoming)
      invariant amount == p.active + Leading(p.incoming, nextIncoming)
      invariant accumulated == YieldSum(p.active, p.incoming, snaps, w, p.earned.next, next)
    {
      while nextIncoming < |p.incoming| && p.incoming[nextIncoming].at == next
        invariant nextIncoming <= |p.incoming|
        invariant forall l :: 0 <= l < nextIncoming ==> p.incoming[l].at <= next
        invariant forall l :: nextIncoming <= l < |p.incoming| ==> p.incoming[l].at >= next
        invariant amount == p.active + Leading(p.incoming, nextIncoming)
      {
        amount := amount + p.incoming[nextIncoming].amount;
        nextIncoming := nextIncoming + 1;
      }
      LeadingActivated(p.incoming, nextIncoming, next);
      var snapshot := snaps[next];
      ShareOfNothing(Yield(snaps, next), amount, w);
      if snapshot.active != 0 {
        var duration := snapshot.end - prevEnd;
        var interest := Interest(snapshot.borrowed, RateTime(snapshot.rate, duration));
        accumulated := accumulated
          + Share(interest + snapshot.distribution * TWO_128, amount, snapshot.active, w);
      }
      prevEnd := snapshot.end;
      next := next + 1;
    }
    r := AccumulationRecord(accumulated / TWO_128, accumulated % TWO_128, next);
  }
}
