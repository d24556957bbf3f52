/**
 Serving the withdrawal queue: requests are met from the front, each from what the
 market can pay at that moment, until a limit, an empty queue or a shortage.
 */
module QueueExecution {
  import opened Arith
  import opened Sums
  import opened Market
  import opened MarketRuns
  import opened MarketObject
  import opened WithdrawalQueue

  /** Serves the first request: the market, the queue, and whether to go on with the
      next one. `None` where the request panics. */
  function ServeFirst(s: State, c: Config, items: seq<Item>, fee: nat): (r: Option<(State, seq<Item>, bool)>)
    requires Inv(s, c) && items != []
    ensures r.Some? ==> Inv(r.value.0, c)
  {
    var a, requested := items[0].account, items[0].amount;
    var t := WithdrawStart(s, c, a, requested, fee);
    if t.None? then None else
      WithdrawStartKeeps(s, c, a, requested, fee);
      match WithdrawOutcome(s, c, a, requested)
      case NoLiquidity => Some((t.value, items, false))
      case PaidInPart(remaining) => Some((t.value, items[0 := Item(a, remaining)], false))
      case _ => Some((t.value, items[1..], true))
  }

  /** The market and the queue after serving at most `|fees|` requests, `fees` being
      what each is charged. */
  function Serve(s: State, c: Config, items: seq<Item>, fees: seq<nat>): (r: Option<(State, seq<Item>)>)
    requires Inv(s, c)
    decreases |fees|
  {
    if items == [] || fees == [] then Some((s, items)) else
      var r := ServeFirst(s, c, items, fees[0]);
      if r.None? then None
      else if r.value.2 then Serve(r.value.0, c, r.value.1, fees[1..])
      else Some((r.value.0, r.value.1))
  }

  /** The market's part in serving the first `n` requests, one after the other. */
  function Starts(items: seq<Item>, fees: seq<nat>, n: nat): (r: seq<Step>)
    requires n <= |items| && n <= |fees|
  {
    if n == 0 then []
    else [WithdrawalStarted(items[0].account, items[0].amount, fees[0])] + Starts(items[1..], fees[1..], n - 1)
  }

  /** How many requests at the front are visited. */
  function Visited(s: State, c: Config, items: seq<Item>, fees: seq<nat>): (n: nat)
    requires Inv(s, c)
    ensures n <= |items| && n <= |fees|
    decreases |fees|
  {
    if items == [] || fees == [] then 0 else
      var r := ServeFirst(s, c, items, fees[0]);
      if r.None? || !r.value.2 then 1 else 1 + Visited(r.value.0, c, items[1..], fees[1..])
  }

  /** `rest` is what stays of `items` after the first `n` were visited: all but those,
      or the last one visited still waits, for no more than it asked for. */
  ghost predicate StillWaiting(items: seq<Item>, n: nat, rest: seq<Item>) {
    || (n <= |items| && rest == items[n..])
    || (1 <= n <= |items| && rest != [] && rest[0].account == items[n - 1].account
        && rest[0].amount <= items[n - 1].amount && rest[1..] == items[n..])
  }

  lemma FirstServed(s: State, c: Config, items: seq<Item>, fee: nat)
    requires Inv(s, c) && items != [] && ServeFirst(s, c, items, fee).Some?
    ensures var (t, rest, more) := ServeFirst(s, c, items, fee).value;
            && Next(s, c, WithdrawalStarted(items[0].account, items[0].amount, fee)) == Some(t)
            && (more ==> rest == items[1..])
            && (!more ==> rest != [] && rest[0].account == items[0].account && rest[0].amount <= items[0].amount
                          && rest[1..] == items[1..])
  {
    hide Inv, WithdrawStart, WithdrawOutcome;
    var outcome := WithdrawOutcome(s, c, items[0].account, items[0].amount);
    if outcome.PaidInPart? {
      LessRemains(s, c, items[0].account, items[0].amount);
    }
  }

  lemma LessRemains(s: State, c: Config, a: Account, requested: nat)
    requires Inv(s, c) && WithdrawOutcome(s, c, a, requested).PaidInPart?
    ensures 0 < WithdrawOutcome(s, c, a, requested).remaining <= requested
  {
    hide Inv;
  }

  /** The queue is served strictly in order: the market goes through the withdrawals
      of the first requests one after the other, and every request behind the last one
      visited keeps its place, its account and its amount. */
  lemma {:induction false} ServedInOrder(s: State, c: Config, items: seq<Item>, fees: seq<nat>)
    requires Inv(s, c) && Serve(s, c, items, fees).Some?
    ensures var (t, rest) := Serve(s, c, items, fees).value;
            var n := Visited(s, c, items, fees);
            t == MarketRuns.Run(s, c, Starts(items, fees, n)) && StillWaiting(items, n, rest)
    decreases |fees|
  {
    hide Inv, ServeFirst, Next;
    if items != [] && fees != [] {
      FirstServed(s, c, items, fees[0]);
      var (t, rest, more) := ServeFirst(s, c, items, fees[0]).value;
      var n := Visited(s, c, items, fees);
      assert Starts(items, fees, n)[1..] == Starts(items[1..], fees[1..], n - 1);
      if more {
        ServedInOrder(t, c, items[1..], fees[1..]);
        assert items[1..][n - 1..] == items[n..];
        assert n >= 2 ==> items[1..][n - 2] == items[n - 1];
      }
    }
  }

  lemma FirstPanics(s: State, c: Config, items: seq<Item>, fee: nat)
    requires Inv(s, c) && items != []
    ensures ServeFirst(s, c, items, fee).None? <==>
            Next(s, c, WithdrawalStarted(items[0].account, items[0].amount, fee)).None?
  {
    hide Inv, WithdrawStart, WithdrawOutcome;
  }

  /** The last request visited panics after those before it went through. */
  ghost predicate LastPanics(s: State, c: Config, items: seq<Item>, fees: seq<nat>, n: nat)
    requires Inv(s, c) && n <= |items| && n <= |fees|
  {
    n > 0 && Next(MarketRuns.Run(s, c, Starts(items, fees, n - 1)), c,
                  WithdrawalStarted(items[n - 1].account, items[n - 1].amount, fees[n - 1])).None?
  }

  /** An execution panics, and then sends out nothing at all, if and only if the last
      request it comes to panics in the market that those before it have left. */
  lemma {:induction false} ServePanics(s: State, c: Config, items: seq<Item>, fees: seq<nat>)
    requires Inv(s, c)
    ensures Serve(s, c, items, fees).None? <==> LastPanics(s, c, items, fees, Visited(s, c, items, fees))
    decreases |fees|
  {
    hide Inv, ServeFirst, Next;
    if items != [] && fees != [] {
      FirstPanics(s, c, items, fees[0]);
      var first := ServeFirst(s, c, items, fees[0]);
      if first.Some? {
        FirstServed(s, c, items, fees[0]);
        if first.value.2 {
          ServePanics(first.value.0, c, items[1..], fees[1..]);
          var n := Visited(s, c, items, fees);
          assert n >= 2 ==> Starts(items, fees, n - 1)[1..] == Starts(items[1..], fees[1..], n - 2);
        }
      }
    }
  }

  lemma {:induction false} DepthOfFirst(items: seq<Item>)
    requires items != []
    ensures Depth(items) == items[0].amount + Depth(items[1..])
    decreases |items|
  {
    if |items| > 1 {
      var init := items[..|items| - 1];
      DepthOfFirst(init);
      assert items[1..][..|items| - 2] == init[1..];
    }
  }

  lemma HeadDepth(items: seq<Item>, amount: nat)
    requires items != []
    ensures Depth(items) == items[0].amount + Depth(items[1..])
    ensures Depth(items[0 := Item(items[0].account, amount)]) == amount + Depth(items[1..])
  {
    var changed := items[0 := Item(items[0].account, amount)];
    assert changed[1..] == items[1..];
    DepthOfFirst(items);
    DepthOfFirst(changed);
  }

  /** Serves the first request; `depth` and `length` are what the queue loses. */
  method ExecuteFirst(market: LendingMarket, queue: Queue, first: Item, fee: nat)
    returns (ok: bool, more: bool, depth: nat, length: nat)
    requires market.Valid() && queue.Valid() && queue.Contents() != [] && queue.Contents()[0] == first
    modifies market, queue
    ensures Inv(old(market.ledger), market.config)
    ensures ok <==> ServeFirst(old(market.ledger), market.config, old(queue.Contents()), fee).Some?
    ensures ok ==> market.Valid() && queue.Valid()
    ensures ok ==> ServeFirst(old(market.ledger), market.config, old(queue.Contents()), fee)
                   == Some((market.ledger, queue.Contents(), more))
    ensures ok ==> depth + Depth(queue.Contents()) == Depth(old(queue.Contents()))
    ensures ok ==> length + |queue.Contents()| == |old(queue.Contents())|
  {
    hide Inv, WithdrawStart, WithdrawOutcome, Depth, Consistent, Items;
    ghost var s := market.ledger;
    var outcome;
    ok, outcome := market.StartWithdrawal(first.account, first.amount, fee);
    more, depth, length := false, 0, 0;
    if ok {
      match outcome
      case NoLiquidity =>
      case PaidInPart(remaining) =>
        LessRemains(s, market.config, first.account, first.amount);
        HeadDepth(queue.Contents(), remaining);
        var _ := queue.MutHead(amount => (remaining, amount));
        depth := first.amount - remaining;
      case _ =>
        HeadDepth(queue.Contents(), 0);
        var _ := queue.PopFront();
        more, depth, length := true, first.amount, 1;
    }
  }

  /** Serves up to `|fees|` requests. It reports the amount by which the queue has
      become shallower and the number of requests gone from it. */
  method ExecuteRequests(market: LendingMarket, queue: Queue, fees: seq<nat>)
    returns (ok: bool, depth: nat, length: nat)
    requires market.Valid() && queue.Valid()
    modifies market, queue
    ensures Inv(old(market.ledger), market.config)
    ensures ok <==> Serve(old(market.ledger), market.config, old(queue.Contents()), fees).Some?
    ensures ok ==> market.Valid() && queue.Valid()
    ensures ok ==> Serve(old(market.ledger), market.config, old(queue.Contents()), fees)
                   == Some((market.ledger, queue.Contents()))
    ensures ok ==> depth + Depth(queue.Contents()) == Depth(old(queue.Contents()))
    ensures ok ==> length + |queue.Contents()| == |old(queue.Contents())|
  {
    hide Inv, ServeFirst, Depth, Consistent, Items;
    ghost var s, items := market.ledger, queue.Contents();
    var visited, more := 0, true;
    depth, length := 0, 0;
    assert fees[0..] == fees;
    while more && visited < |fees|
      invariant 0 <= visited <= |fees| && market.Valid() && queue.Valid()
      invariant more ==> Serve(market.ledger, market.config, queue.Contents(), fees[visited..])
                         == Serve(s, market.config, items, fees)
      invariant !more ==> Serve(s, market.config, items, fees) == Some((market.ledger, queue.Contents()))
      invariant depth + Depth(queue.Contents()) == Depth(items) && length + |queue.Contents()| == |items|
      decreases |fees| - visited, more
    {
      var head := queue.Peek();
      if head.None? {
        more := false;
      } else {
        ghost var left := fees[visited..];
        assert left[0] == fees[visited] && left[1..] == fees[visited + 1..];
        var d, l;
        ok, more, d, l := ExecuteFirst(market, queue, head.value, fees[visited]);
        if !ok {
          return false, depth, length;
        }
        visited, depth, length := visited + 1, depth + d, length + l;
      }
    }
    ok := true;
  }
}
