/**
 Time. The clock is cut into chunks of a configured duration; every call first
 finalizes the current snapshot if the chunk has changed since the last call. A
 sequence of steps is scheduled if it finalizes exactly then.
 */
module Schedule {
  import opened Arith
  import opened Sums
  import opened Accrual
  import opened SupplySteps
  import opened StaticLedger
  import opened Market
  import opened MarketRuns

  /** The chunk a time falls into; without a duration every time is one of its own. */
  function Chunk(duration: nat, time: nat): (r: nat) {
    if duration == 0 then time else time / duration
  }

  /** When a step happens; one without a time of its own, at the time of the one before. */
  function TimeOf(step: Step, clock: nat): (r: nat) {
    match step
    case Finalize(now, _) => now
    case Supplied(_, _, now) => now
    case BorrowEnded(_, _, now) => now
    case _ => clock
  }

  /** The time a sequence of steps ends at. */
  function Clock(start: nat, steps: seq<Step>): (r: nat)
    decreases |steps|
  {
    if steps == [] then start else TimeOf(steps[|steps| - 1], Clock(start, steps[..|steps| - 1]))
  }

  /** A snapshot is finalized exactly when the chunk has changed. */
  predicate Fits(duration: nat, clock: nat, step: Step) {
    && clock <= TimeOf(step, clock)
    && (step.Finalize? <==> Chunk(duration, TimeOf(step, clock)) != Chunk(duration, clock))
  }

  /** The market is set up at `start`, which must not be in the first chunk of all, and
      every step fits. */
  predicate Scheduled(duration: nat, start: nat, steps: seq<Step>)
    decreases |steps|
  {
    if steps == [] then Chunk(duration, start) > 0
    else
      && Scheduled(duration, start, steps[..|steps| - 1])
      && Fits(duration, Clock(start, steps[..|steps| - 1]), steps[|steps| - 1])
  }

  lemma ScheduledNext(duration: nat, start: nat, steps: seq<Step>, step: Step)
    ensures Clock(start, steps + [step]) == TimeOf(step, Clock(start, steps))
    ensures Scheduled(duration, start, steps + [step]) <==>
            Scheduled(duration, start, steps) && Fits(duration, Clock(start, steps), step)
  {
    assert (steps + [step])[..|steps|] == steps;
  }

  lemma ChunkMonotone(duration: nat, t: nat, u: nat)
    requires t <= u
    ensures Chunk(duration, t) <= Chunk(duration, u)
  {
    if duration > 0 && u / duration < t / duration {
      DivBounds(t, duration);
      DivBounds(u, duration);
      MulMono(u / duration + 1, t / duration, duration);
    }
  }

  // ---- Snapshots over a scheduled run ----

  lemma WithdrawalKeepsSnaps(s: State, c: Config, a: Account, requested: nat, fee: nat)
    requires Inv(s, c) && WithdrawStart(s, c, a, requested, fee).Some?
    ensures WithdrawStart(s, c, a, requested, fee).value.snaps == s.snaps
  {
    hide Inv, Touched, Remove, PlanOf, Withdrawable;
  }

  lemma SnapsStay(s: State, c: Config, step: Step)
    requires Inv(s, c) && Next(s, c, step).Some? && !step.Finalize?
    ensures Next(s, c, step).value.snaps == s.snaps
  {
    hide Inv, WithdrawStart, WithdrawalsEnd, Deposit, Touched, Guard, AccrueStatic, Withdraw, SettleWithdrawal;
    match step
    case WithdrawalStarted(a, requested, fee) => WithdrawalKeepsSnaps(s, c, a, requested, fee);
    case WithdrawalsEnded(batch) => WithdrawalsEndSame(s, c, batch);
    case _ =>
  }

  /** Snapshots end in chunks of their own, in rising order, none later than the clock. */
  ghost predicate OnePerChunk(duration: nat, clock: nat, snaps: seq<Snapshot>) {
    && snaps != [] && snaps[|snaps| - 1].end <= clock
    && forall i, j :: 0 <= i < j < |snaps| ==> Chunk(duration, snaps[i].end) < Chunk(duration, snaps[j].end)
  }

  lemma StepOnePerChunk(s: State, c: Config, duration: nat, clock: nat, step: Step)
    requires Inv(s, c) && OnePerChunk(duration, clock, s.snaps) && Fits(duration, clock, step)
    ensures OnePerChunk(duration, TimeOf(step, clock), After(s, c, step).snaps)
    ensures step.Finalize? ==> (Next(s, c, step).None? <==> |s.snaps| >= U32_MAX)
  {
    hide Inv, Chunk;
    if step.Finalize? {
      NextTick(s, c, step.now, step.rate);
      ChunkMonotone(duration, s.snaps[|s.snaps| - 1].end, clock);
      ChunkMonotone(duration, clock, step.now);
      hide Next, Activated, CurrentActive;
    } else if Next(s, c, step).Some? {
      SnapsStay(s, c, step);
      hide Next;
    }
  }

  lemma {:induction false} RunOnePerChunk(s: State, c: Config, duration: nat, start: nat, steps: seq<Step>)
    requires Inv(s, c) && OnePerChunk(duration, start, s.snaps) && Scheduled(duration, start, steps)
    ensures OnePerChunk(duration, Clock(start, steps), Run(s, c, steps).snaps)
    decreases |steps|
  {
    hide Inv, After, Fits, OnePerChunk, TimeOf;
    if steps != [] {
      var init, last := steps[..|steps| - 1], steps[|steps| - 1];
      RunOnePerChunk(s, c, duration, start, init);
      StepOnePerChunk(Run(s, c, init), c, duration, Clock(start, init), last);
      assert steps == init + [last];
      RunInTwo(s, c, init, [last]);
      RunOne(Run(s, c, init), c, last);
      hide Run, Scheduled;
    }
  }

  /** Over every scheduled run there is at most one snapshot for each chunk of time. */
  lemma SnapshotPerChunk(duration: nat, start: nat, records: map<Account, StaticRecord>, c: Config, steps: seq<Step>)
    requires ValidConfig(c) && FreshRecords(records, c) && Scheduled(duration, start, steps)
    ensures Inv(EmptyMarket(start, records), c)
    ensures OnePerChunk(duration, Clock(start, steps), Run(EmptyMarket(start, records), c, steps).snaps)
  {
    hide Inv, FreshRecords, Scheduled, Run;
    EmptyMarketInv(start, records, c);
    RunOnePerChunk(EmptyMarket(start, records), c, duration, start, steps);
  }
}
