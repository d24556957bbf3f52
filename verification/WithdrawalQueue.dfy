/**
 The supply withdrawal queue: a doubly linked list kept in a key-value map, with
 an index from accounts to nodes. It is shown to behave as a plain sequence of
 requests in which no account appears twice.
 */
module WithdrawalQueue {
  import opened Arith
  import opened Sums

  datatype Node = Node(account: Account, amount: nat, prev: Option<nat>, next: Option<nat>)

  datatype Item = Item(account: Account, amount: nat)

  // ---- The requests as a sequence ----

  ghost predicate NoDuplicates(items: seq<Item>) {
    forall i, j :: 0 <= i < j < |items| ==> items[i].account != items[j].account
  }

  ghost predicate Has(items: seq<Item>, a: Account) {
    exists i :: 0 <= i < |items| && items[i].account == a
  }

  /** The place of an account, or the length when it has none. */
  function IndexOf(items: seq<Item>, a: Account): (k: nat)
    ensures k <= |items|
    ensures forall i :: 0 <= i < k ==> items[i].account != a
    ensures k < |items| ==> items[k].account == a
  {
    if items == [] || items[0].account == a then 0 else 1 + IndexOf(items[1..], a)
  }

  function Depth(items: seq<Item>): (d: nat) {
    if items == [] then 0 else Depth(items[..|items| - 1]) + items[|items| - 1].amount
  }

  datatype Operation =
    | Pop
    | Remove(account: Account)
    | InsertOrUpdate(account: Account, amount: nat)
    | SetHead(amount: nat)

  /** What each operation does to the sequence of requests. */
  function Apply(items: seq<Item>, op: Operation): (r: seq<Item>) {
    match op
    case Pop => if items == [] then [] else items[1..]
    case Remove(a) =>
      var k := IndexOf(items, a);
      if k < |items| then RemoveAt(items, k) else items
    case InsertOrUpdate(a, amount) =>
      var k := IndexOf(items, a);
      if k < |items| then items[k := Item(a, amount)] else items + [Item(a, amount)]
    case SetHead(amount) =>
      if items == [] then [] else items[0 := Item(items[0].account, amount)]
  }

  function Run(items: seq<Item>, ops: seq<Operation>): (r: seq<Item>) {
    if ops == [] then items else Apply(Run(items, ops[..|ops| - 1]), ops[|ops| - 1])
  }

  /** How many operations of a run add a new request. */
  ghost function Appends(items: seq<Item>, ops: seq<Operation>): (n: nat) {
    if ops == [] then 0
    else
      var before, last := ops[..|ops| - 1], ops[|ops| - 1];
      Appends(items, before) + if last.InsertOrUpdate? && !Has(Run(items, before), last.account) then 1 else 0
  }

  lemma {:induction false} AppendsGrow(items: seq<Item>, ops: seq<Operation>, k: nat)
    requires k <= |ops|
    ensures Appends(items, ops[..k]) <= Appends(items, ops)
    decreases |ops|
  {
    if k < |ops| {
      AppendsGrow(items, ops[..|ops| - 1], k);
      assert ops[..|ops| - 1][..k] == ops[..k];
    } else {
      assert ops[..k] == ops;
    }
  }

  lemma ApplyKeepsDistinct(items: seq<Item>, op: Operation)
    requires NoDuplicates(items)
    ensures NoDuplicates(Apply(items, op))
  {}

  /** However the queue is used, every account has at most one request in it. */
  lemma {:induction false} RunKeepsDistinct(items: seq<Item>, ops: seq<Operation>)
    requires NoDuplicates(items)
    ensures NoDuplicates(Run(items, ops))
    decreases |ops|
  {
    if ops != [] {
      RunKeepsDistinct(items, ops[..|ops| - 1]);
      ApplyKeepsDistinct(Run(items, ops[..|ops| - 1]), ops[|ops| - 1]);
    }
  }

  /** Asking again, as the market does by removing and inserting, moves an account
      to the back and keeps the order of all others. */
  lemma RequestAgainMovesToBack(items: seq<Item>, a: Account, amount: nat)
    requires NoDuplicates(items)
    ensures var k := IndexOf(items, a);
            var rest := if k < |items| then RemoveAt(items, k) else items;
            && !Has(rest, a)
            && Apply(Apply(items, Remove(a)), InsertOrUpdate(a, amount)) == rest + [Item(a, amount)]
  {
    hide IndexOf;
    AbsentAfterRemoval(items, a);
    InsertAbsent(Apply(items, Remove(a)), a, amount);
  }

  lemma InsertAbsent(items: seq<Item>, a: Account, amount: nat)
    requires !Has(items, a)
    ensures Apply(items, InsertOrUpdate(a, amount)) == items + [Item(a, amount)]
  {
    assert IndexOf(items, a) == |items|;
  }

  lemma AbsentAfterRemoval(items: seq<Item>, a: Account)
    requires NoDuplicates(items)
    ensures var k := IndexOf(items, a);
            !Has(if k < |items| then RemoveAt(items, k) else items, a)
  {
    hide IndexOf;
    var k := IndexOf(items, a);
    if k < |items| {
      forall i | 0 <= i < |items| && i != k ensures items[i].account != a {
        assert i < k || items[k].account != items[i].account;
      }
      forall i | 0 <= i < |RemoveAt(items, k)| ensures RemoveAt(items, k)[i].account != a {
        assert RemoveAt(items, k)[i] == items[if i < k then i else i + 1];
      }
    }
  }

  // ---- The linked list in a map ----

  function Before(order: seq<nat>, i: nat): (r: Option<nat>)
    requires i < |order|
  {
    if i == 0 then None else Some(order[i - 1])
  }

  function After(order: seq<nat>, i: nat): (r: Option<nat>)
    requires i < |order|
  {
    if i + 1 == |order| then None else Some(order[i + 1])
  }

  ghost predicate Increasing(order: seq<nat>) {
    forall i, j :: 0 <= i < j < |order| ==> order[i] < order[j]
  }

  /** The node at place `i` points to its neighbours in `order`. */
  ghost predicate LinkedAt(queue: map<nat, Node>, order: seq<nat>, i: nat) {
    && i < |order| && order[i] in queue
    && queue[order[i]].prev == Before(order, i) && queue[order[i]].next == After(order, i)
  }

  /** The nodes of the map are the ids of `order`, linked in both directions. */
  ghost predicate Linked(queue: map<nat, Node>, order: seq<nat>) {
    && (forall id :: id in queue <==> id in order)
    && (forall i :: 0 <= i < |order| ==> LinkedAt(queue, order, i))
  }

  /** The account index and the nodes are inverse to each other. */
  ghost predicate Indexed(queue: map<nat, Node>, entries: map<Account, nat>) {
    && (forall a :: a in entries ==> entries[a] in queue && queue[entries[a]].account == a)
    && (forall id :: id in queue ==> queue[id].account in entries && entries[queue[id].account] == id)
  }

  function Items(queue: map<nat, Node>, order: seq<nat>): (r: seq<Item>)
    requires forall i :: 0 <= i < |order| ==> order[i] in queue
    ensures |r| == |order|
    ensures forall i :: 0 <= i < |order| ==>
              r[i] == Item(queue[order[i]].account, queue[order[i]].amount)
  {
    if order == [] then [] else
      Items(queue, order[..|order| - 1])
      + [Item(queue[order[|order| - 1]].account, queue[order[|order| - 1]].amount)]
  }

  function First(order: seq<nat>): (r: Option<nat>) {
    if order == [] then None else Some(order[0])
  }

  function Last(order: seq<nat>): (r: Option<nat>) {
    if order == [] then None else Some(order[|order| - 1])
  }

  function Dropped(order: seq<nat>, k: nat): (r: seq<nat>)
    requires k < |order|
  {
    order[..k] + order[k + 1..]
  }

  function SetPrev(queue: map<nat, Node>, id: Option<nat>, prev: Option<nat>): (r: map<nat, Node>)
    requires id.Some? ==> id.value in queue
  {
    if id.None? then queue else queue[id.value := queue[id.value].(prev := prev)]
  }

  function SetNext(queue: map<nat, Node>, id: Option<nat>, next: Option<nat>): (r: map<nat, Node>)
    requires id.Some? ==> id.value in queue
  {
    if id.None? then queue else queue[id.value := queue[id.value].(next := next)]
  }

  lemma Distinct(order: seq<nat>, i: nat, j: nat)
    requires Increasing(order) && i < |order| && j < |order|
    ensures order[i] == order[j] <==> i == j
  {}

  lemma DroppedMembers(order: seq<nat>, k: nat, id: nat)
    requires Increasing(order) && k < |order|
    ensures id in Dropped(order, k) <==> id in order && id != order[k]
    ensures Increasing(Dropped(order, k))
  {
    var d := Dropped(order, k);
    if id in order && id != order[k] {
      var i :| 0 <= i < |order| && order[i] == id;
      assert d[if i < k then i else i - 1] == id;
    }
    if id in d {
      var i :| 0 <= i < |d| && d[i] == id;
      assert d[i] == order[if i < k then i else i + 1];
      Distinct(order, if i < k then i else i + 1, k);
    }
  }

  /** `queue'` is `queue` with the node of place `k` cut out. */
  ghost predicate CutOut(queue: map<nat, Node>, order: seq<nat>, k: nat, queue': map<nat, Node>)
    requires k < |order|
  {
    && (forall x :: x in queue' <==> x in queue && x != order[k])
    && (forall x :: x in queue' ==>
          && queue'[x].account == queue[x].account && queue'[x].amount == queue[x].amount
          && queue'[x].prev == (if After(order, k) == Some(x) then Before(order, k) else queue[x].prev)
          && queue'[x].next == (if Before(order, k) == Some(x) then After(order, k) else queue[x].next))
  }

  /** Who stands next to whom once place `k` is gone. */
  lemma NeighboursAfterDrop(order: seq<nat>, k: nat, i: nat)
    requires Increasing(order) && k < |order| && i < |Dropped(order, k)|
    ensures var d := Dropped(order, k);
            var j := if i < k then i else i + 1;
            && d[i] == order[j] && order[j] != order[k]
            && Before(d, i) == (if After(order, k) == Some(order[j]) then Before(order, k) else Before(order, j))
            && After(d, i) == (if Before(order, k) == Some(order[j]) then After(order, k) else After(order, j))
  {
    var j := if i < k then i else i + 1;
    Distinct(order, j, k);
    if k + 1 < |order| {
      Distinct(order, j, k + 1);
    }
    if k > 0 {
      Distinct(order, j, k - 1);
    }
  }

  lemma UnlinkedNode(queue: map<nat, Node>, order: seq<nat>, k: nat, queue': map<nat, Node>, i: nat)
    requires Linked(queue, order) && Increasing(order) && k < |order| && CutOut(queue, order, k, queue')
    requires i < |Dropped(order, k)|
    ensures var d := Dropped(order, k);
            var was := order[if i < k then i else i + 1];
            && d[i] == was && was in queue && d[i] in queue'
            && LinkedAt(queue', d, i)
            && queue'[d[i]].account == queue[was].account && queue'[d[i]].amount == queue[was].amount
  {
    NeighboursAfterDrop(order, k, i);
    hide Increasing, Dropped, Before, After;
    assert LinkedAt(queue, order, if i < k then i else i + 1);
  }

  lemma CutMembers(queue: map<nat, Node>, order: seq<nat>, k: nat, queue': map<nat, Node>, id: nat)
    requires Linked(queue, order) && Increasing(order) && k < |order| && CutOut(queue, order, k, queue')
    ensures id in queue' <==> id in Dropped(order, k)
  {
    DroppedMembers(order, k, id);
    hide Dropped, LinkedAt, Increasing;
  }

  /** Unlinking a node joins its two neighbours and touches nothing else. */
  lemma Unlinked(queue: map<nat, Node>, order: seq<nat>, k: nat, queue': map<nat, Node>)
    requires Linked(queue, order) && Increasing(order) && k < |order| && CutOut(queue, order, k, queue')
    ensures Linked(queue', Dropped(order, k)) && Increasing(Dropped(order, k))
  {
    hide CutOut, Increasing, Dropped, LinkedAt;
    DroppedMembers(order, k, 0);
    forall id ensures (id in queue' <==> id in Dropped(order, k)) {
      CutMembers(queue, order, k, queue', id);
    }
    forall i | 0 <= i < |Dropped(order, k)| ensures LinkedAt(queue', Dropped(order, k), i) {
      UnlinkedNode(queue, order, k, queue', i);
    }
  }

  lemma ItemsWithout(queue: map<nat, Node>, order: seq<nat>, k: nat, queue': map<nat, Node>)
    requires Linked(queue, order) && Increasing(order) && k < |order| && CutOut(queue, order, k, queue')
    requires Linked(queue', Dropped(order, k))
    ensures Items(queue', Dropped(order, k)) == RemoveAt(Items(queue, order), k)
  {
    hide Items;
    var d := Dropped(order, k);
    var after, before := Items(queue', d), Items(queue, order);
    forall i | 0 <= i < |d| ensures after[i] == RemoveAt(before, k)[i] {
      UnlinkedNode(queue, order, k, queue', i);
    }
  }

  lemma LinkedPlace(queue: map<nat, Node>, order: seq<nat>, i: nat)
    requires Linked(queue, order) && i < |order|
    ensures LinkedAt(queue, order, i)
  {}

  /** The ids a node points to are other nodes of the list. */
  lemma Neighbours(queue: map<nat, Node>, order: seq<nat>, k: nat)
    requires Linked(queue, order) && Increasing(order) && k < |order|
    ensures LinkedAt(queue, order, k)
    ensures k > 0 ==> order[k - 1] in queue && order[k - 1] != order[k]
    ensures k + 1 < |order| ==> order[k + 1] in queue && order[k + 1] != order[k]
    ensures 0 < k && k + 1 < |order| ==> order[k - 1] != order[k + 1]
  {}

  function AppendNode(queue: map<nat, Node>, tail: Option<nat>, id: nat, a: Account, amount: nat): (r: map<nat, Node>)
    requires tail.Some? ==> tail.value in queue
  {
    SetNext(queue, tail, Some(id))[id := Node(a, amount, tail, None)]
  }

  lemma AppendedNode(queue: map<nat, Node>, order: seq<nat>, id: nat, a: Account, amount: nat, i: nat)
    requires Linked(queue, order) && Increasing(order) && i <= |order|
    requires forall i :: 0 <= i < |order| ==> order[i] < id
    ensures Last(order).Some? ==> Last(order).value in queue
    ensures var queue' := AppendNode(queue, Last(order), id, a, amount);
            LinkedAt(queue', order + [id], i)
  {
    assert order != [] ==> LinkedAt(queue, order, |order| - 1);
    if i < |order| {
      assert LinkedAt(queue, order, i);
      Distinct(order, i, |order| - 1);
    }
  }

  /** Appending a node behind the last one. */
  lemma Appended(queue: map<nat, Node>, order: seq<nat>, id: nat, a: Account, amount: nat)
    requires Linked(queue, order) && Increasing(order)
    requires forall i :: 0 <= i < |order| ==> order[i] < id
    ensures Last(order).Some? ==> Last(order).value in queue
    ensures Linked(AppendNode(queue, Last(order), id, a, amount), order + [id])
    ensures Increasing(order + [id])
  {
    AppendedNode(queue, order, id, a, amount, |order|);
    var longer, queue' := order + [id], AppendNode(queue, Last(order), id, a, amount);
    forall i | 0 <= i < |longer| ensures LinkedAt(queue', longer, i) {
      AppendedNode(queue, order, id, a, amount, i);
    }
    hide LinkedAt;
    assert forall x :: x in longer <==> x in order || x == id;
  }

  lemma ItemsSnoc(queue: map<nat, Node>, order: seq<nat>, id: nat)
    requires id in queue && forall i :: 0 <= i < |order| ==> order[i] in queue
    ensures Items(queue, order + [id]) == Items(queue, order) + [Item(queue[id].account, queue[id].amount)]
  {
    assert (order + [id])[..|order|] == order;
  }

  lemma ItemsAgree(queue: map<nat, Node>, queue': map<nat, Node>, order: seq<nat>)
    requires forall i :: 0 <= i < |order| ==>
               && order[i] in queue && order[i] in queue'
               && queue'[order[i]].account == queue[order[i]].account
               && queue'[order[i]].amount == queue[order[i]].amount
    ensures Items(queue', order) == Items(queue, order)
  {
    hide Items;
  }

  lemma AppendedItems(queue: map<nat, Node>, order: seq<nat>, id: nat, a: Account, amount: nat)
    requires Linked(queue, order) && Increasing(order)
    requires forall i :: 0 <= i < |order| ==> order[i] < id
    requires Last(order).Some? ==> Last(order).value in queue
    requires Linked(AppendNode(queue, Last(order), id, a, amount), order + [id])
    ensures Items(AppendNode(queue, Last(order), id, a, amount), order + [id])
            == Items(queue, order) + [Item(a, amount)]
  {
    var queue' := AppendNode(queue, Last(order), id, a, amount);
    hide Items, Increasing;
    forall i | 0 <= i < |order|
      ensures order[i] in queue && order[i] in queue'
      ensures queue'[order[i]].account == queue[order[i]].account
      ensures queue'[order[i]].amount == queue[order[i]].amount
    {
      assert LinkedAt(queue, order, i);
      hide Linked, LinkedAt;
    }
    hide Linked, LinkedAt;
    ItemsSnoc(queue', order, id);
    ItemsAgree(queue, queue', order);
  }

  /** Changing only an amount. */
  lemma Reamounted(queue: map<nat, Node>, order: seq<nat>, k: nat, amount: nat)
    requires Linked(queue, order) && k < |order|
    ensures Linked(queue[order[k] := queue[order[k]].(amount := amount)], order)
  {
    var queue' := queue[order[k] := queue[order[k]].(amount := amount)];
    assert LinkedAt(queue, order, k);
    forall i | 0 <= i < |order| ensures LinkedAt(queue', order, i) {
      assert LinkedAt(queue, order, i);
    }
  }

  lemma ReamountedItems(queue: map<nat, Node>, order: seq<nat>, k: nat, amount: nat)
    requires Increasing(order) && k < |order| && (forall i :: 0 <= i < |order| ==> order[i] in queue)
    ensures Items(queue[order[k] := queue[order[k]].(amount := amount)], order)
            == Items(queue, order)[k := Item(queue[order[k]].account, amount)]
  {
    hide Items;
    var queue' := queue[order[k] := queue[order[k]].(amount := amount)];
    forall i | 0 <= i < |order|
      ensures Items(queue', order)[i] == Items(queue, order)[k := Item(queue[order[k]].account, amount)][i]
    {
      Distinct(order, i, k);
    }
  }

  /** The index finds the place of an account. */
  lemma IndexFinds(queue: map<nat, Node>, order: seq<nat>, entries: map<Account, nat>, a: Account)
    requires Linked(queue, order) && Increasing(order) && Indexed(queue, entries)
    ensures var k := IndexOf(Items(queue, order), a);
            && (a in entries <==> k < |order|)
            && (a in entries ==> order[k] == entries[a])
    ensures NoDuplicates(Items(queue, order))
  {
    hide Items, IndexOf;
    var items := Items(queue, order);
    var k := IndexOf(items, a);
    if a in entries {
      var i :| 0 <= i < |order| && order[i] == entries[a];
      assert items[i].account == a;
    }
    if k < |order| {
      assert order[k] in queue;
    }
    forall i, j | 0 <= i < j < |items| ensures items[i].account != items[j].account {
      assert order[i] in queue && order[j] in queue;
    }
  }

  // ---- What every operation keeps ----

  /** The fields of a queue fit together and stand for the ids of `order`. */
  ghost predicate Consistent(length: nat, nextId: nat, queue: map<nat, Node>, head: Option<nat>,
                             tail: Option<nat>, entries: map<Account, nat>, order: seq<nat>)
  {
    && Linked(queue, order) && Increasing(order) && Indexed(queue, entries)
    && head == First(order) && tail == Last(order) && length == |order|
    && (forall i :: 0 <= i < |order| ==> 0 < order[i] < nextId)
  }

  /** What removing a node leaves: its neighbours are joined. */
  function Cut(queue: map<nat, Node>, id: nat): (r: map<nat, Node>)
    requires id in queue
    requires queue[id].next.Some? ==> queue[id].next.value in queue && queue[id].next.value != id
    requires queue[id].prev.Some? ==> queue[id].prev.value in queue && queue[id].prev.value != id
  {
    var node := queue[id];
    SetNext(SetPrev(queue - {id}, node.next, node.prev), node.prev, node.next)
  }

  lemma CutIsCutOut(queue: map<nat, Node>, order: seq<nat>, k: nat)
    requires Linked(queue, order) && Increasing(order) && k < |order|
    ensures var node := queue[order[k]];
            && (node.next.Some? ==> node.next.value in queue && node.next.value != order[k])
            && (node.prev.Some? ==> node.prev.value in queue && node.prev.value != order[k])
            && CutOut(queue, order, k, Cut(queue, order[k]))
  {
    Neighbours(queue, order, k);
  }

  /** A head has no predecessor to join. */
  lemma CutOfHead(queue: map<nat, Node>, id: nat)
    requires id in queue && queue[id].prev == None
    requires queue[id].next.Some? ==> queue[id].next.value in queue && queue[id].next.value != id
    ensures Cut(queue, id) == SetPrev(queue - {id}, queue[id].next, None)
  {}

  lemma CutConsistent(length: nat, nextId: nat, queue: map<nat, Node>, head: Option<nat>, tail: Option<nat>,
                      entries: map<Account, nat>, order: seq<nat>, k: nat, queue': map<nat, Node>)
    requires Consistent(length, nextId, queue, head, tail, entries, order) && k < |order|
    requires CutOut(queue, order, k, queue')
    ensures order[k] in queue
    ensures Consistent(length - 1, nextId, queue',
                       if k > 0 then head else After(order, k),
                       if k + 1 < |order| then tail else Before(order, k),
                       entries - {queue[order[k]].account}, Dropped(order, k))
  {
    assert LinkedAt(queue, order, k);
    hide CutOut, Dropped, Increasing, Indexed, LinkedAt;
    Unlinked(queue, order, k, queue');
    hide Linked;
    CutIndexed(queue, order, k, queue', entries);
    EndsAfterDrop(order, k);
    DroppedBelow(order, k, nextId);
  }

  /** Everything about cutting out place `k` of a consistent queue. */
  lemma CutAll(length: nat, nextId: nat, queue: map<nat, Node>, head: Option<nat>, tail: Option<nat>,
               entries: map<Account, nat>, order: seq<nat>, k: nat)
    requires Consistent(length, nextId, queue, head, tail, entries, order) && k < |order|
    ensures LinkedAt(queue, order, k)
    ensures var node := queue[order[k]];
            && (node.next.Some? ==> node.next.value in queue && node.next.value != order[k])
            && (node.prev.Some? ==> node.prev.value in queue && node.prev.value != order[k])
            && Consistent(length - 1, nextId, Cut(queue, order[k]),
                          if k > 0 then head else After(order, k),
                          if k + 1 < |order| then tail else Before(order, k),
                          entries - {node.account}, Dropped(order, k))
            && Items(Cut(queue, order[k]), Dropped(order, k)) == RemoveAt(Items(queue, order), k)
  {
    hide Items, CutOut, Cut, Dropped, Increasing, Indexed;
    CutIsCutOut(queue, order, k);
    assert LinkedAt(queue, order, k);
    CutConsistent(length, nextId, queue, head, tail, entries, order, k, Cut(queue, order[k]));
    ItemsWithout(queue, order, k, Cut(queue, order[k]));
    hide Linked;
  }

  lemma DroppedBelow(order: seq<nat>, k: nat, nextId: nat)
    requires k < |order| && forall i :: 0 <= i < |order| ==> 0 < order[i] < nextId
    ensures |Dropped(order, k)| == |order| - 1
    ensures forall i :: 0 <= i < |Dropped(order, k)| ==> 0 < Dropped(order, k)[i] < nextId
  {}

  lemma CutIndexed(queue: map<nat, Node>, order: seq<nat>, k: nat, queue': map<nat, Node>, entries: map<Account, nat>)
    requires k < |order| && order[k] in queue && Indexed(queue, entries) && CutOut(queue, order, k, queue')
    ensures Indexed(queue', entries - {queue[order[k]].account})
  {}

  lemma EndsAfterDrop(order: seq<nat>, k: nat)
    requires k < |order|
    ensures First(Dropped(order, k)) == if k > 0 then First(order) else After(order, k)
    ensures Last(Dropped(order, k)) == if k + 1 < |order| then Last(order) else Before(order, k)
  {}

  lemma AppendConsistent(length: nat, nextId: nat, queue: map<nat, Node>, head: Option<nat>, tail: Option<nat>,
                         entries: map<Account, nat>, order: seq<nat>, a: Account, amount: nat)
    requires Consistent(length, nextId, queue, head, tail, entries, order) && a !in entries && nextId > 0
    ensures tail.Some? ==> tail.value in queue
    ensures Consistent(length + 1, nextId + 1, AppendNode(queue, tail, nextId, a, amount),
                       if head.None? then Some(nextId) else head, Some(nextId),
                       entries[a := nextId], order + [nextId])
    ensures Items(AppendNode(queue, tail, nextId, a, amount), order + [nextId])
            == Items(queue, order) + [Item(a, amount)]
  {
    hide Items;
    Appended(queue, order, nextId, a, amount);
    AppendedItems(queue, order, nextId, a, amount);
    AppendIndexed(queue, order, nextId, a, amount, entries);
    hide Linked, Indexed, AppendNode;
  }

  lemma AppendIndexed(queue: map<nat, Node>, order: seq<nat>, id: nat, a: Account, amount: nat,
                      entries: map<Account, nat>)
    requires Linked(queue, order) && Indexed(queue, entries) && a !in entries
    requires forall i :: 0 <= i < |order| ==> order[i] < id
    ensures Last(order).Some? ==> Last(order).value in queue
    ensures Indexed(AppendNode(queue, Last(order), id, a, amount), entries[a := id])
  {
    assert Last(order).Some? ==> Last(order).value in order;
    assert id !in queue;
    hide Linked, LinkedAt;
  }

  lemma ReamountConsistent(length: nat, nextId: nat, queue: map<nat, Node>, head: Option<nat>, tail: Option<nat>,
                           entries: map<Account, nat>, order: seq<nat>, k: nat, amount: nat)
    requires Consistent(length, nextId, queue, head, tail, entries, order) && k < |order|
    ensures order[k] in queue
    ensures var queue' := queue[order[k] := queue[order[k]].(amount := amount)];
            && Consistent(length, nextId, queue', head, tail, entries, order)
            && Items(queue', order) == Items(queue, order)[k := Item(queue[order[k]].account, amount)]
  {
    hide Items;
    assert forall i :: 0 <= i < |order| ==> order[i] in order && order[i] in queue;
    Reamounted(queue, order, k, amount);
    ReamountedItems(queue, order, k, amount);
    hide Linked, LinkedAt;
  }

  // ---- The queue object ----

  datatype RequestStatus = RequestStatus(index: nat, depth: nat, amount: nat)

  class Queue {
    var length: nat
    var nextQueueNodeId: nat
    var queue: map<nat, Node>
    var queueHead: Option<nat>
    var queueTail: Option<nat>
    var entries: map<Account, nat>
    ghost var order: seq<nat>

    ghost predicate Valid()
      reads this
    {
      0 < nextQueueNodeId <= U32_MAX && Consistent(length, nextQueueNodeId, queue, queueHead, queueTail, entries, order)
    }

    ghost function Contents(): (r: seq<Item>)
      requires Valid()
      reads this
    {
      Items(queue, order)
    }

    constructor ()
      ensures Valid() && Contents() == []
    {
      length := 0;
      nextQueueNodeId := 1;
      queue := map[];
      queueHead, queueTail := None, None;
      entries := map[];
      order := [];
    }

    method Get(a: Account) returns (r: Option<nat>)
      requires Valid()
      ensures var k := IndexOf(Contents(), a);
              r == if k < |Contents()| then Some(Contents()[k].amount) else None
    {
      IndexFinds(queue, order, entries, a);
      if a in entries && entries[a] in queue {
        r := Some(queue[entries[a]].amount);
      } else {
        r := None;
      }
    }

    method SetExistingNodeNext(id: nat, next: Option<nat>)
      requires id in queue
      modifies this`queue
      ensures queue == SetNext(old(queue), Some(id), next)
    {
      var node := queue[id].(next := next);
      queue := queue[id := node];
    }

    method SetExistingNodePrev(id: nat, prev: Option<nat>)
      requires id in queue
      modifies this`queue
      ensures queue == SetPrev(old(queue), Some(id), prev)
    {
      var node := queue[id].(prev := prev);
      queue := queue[id := node];
    }

    method Peek() returns (r: Option<Item>)
      requires Valid()
      ensures r == if Contents() == [] then None else Some(Contents()[0])
    {
      if queueHead.Some? {
        var node := queue[queueHead.value];
        r := Some(Item(node.account, node.amount));
      } else {
        r := None;
      }
    }

    /** Changes the amount of the first request, if there is one. */
    method MutHead<T>(f: nat -> (nat, T)) returns (r: Option<T>)
      requires Valid()
      modifies this
      ensures Valid()
      ensures old(Contents()) == [] ==> r == None && Contents() == []
      ensures old(Contents()) != [] ==>
                && r == Some(f(old(Contents())[0].amount).1)
                && Contents() == Apply(old(Contents()), SetHead(f(old(Contents())[0].amount).0))
      ensures nextQueueNodeId == old(nextQueueNodeId)
    {
      hide Items, Increasing, Linked, Indexed;
      if queueHead.None? {
        return None;
      }
      ReamountConsistent(length, nextQueueNodeId, queue, queueHead, queueTail, entries, order, 0,
                         f(Contents()[0].amount).0);
      var id := queueHead.value;
      var node := queue[id];
      var (amount, value) := f(node.amount);
      queue := queue[id := node.(amount := amount)];
      r := Some(value);
    }

    /** First in, first out. */
    method PopFront() returns (r: Option<Item>)
      requires Valid()
      modifies this
      ensures Valid()
      ensures r == if old(Contents()) == [] then None else Some(old(Contents())[0])
      ensures Contents() == Apply(old(Contents()), Pop)
      ensures nextQueueNodeId == old(nextQueueNodeId)
    {
      hide Items, Increasing, Linked, Indexed, Cut;
      if queueHead.None? {
        return None;
      }
      CutAll(length, nextQueueNodeId, queue, queueHead, queueTail, entries, order, 0);
      var id := queueHead.value;
      var node := queue[id];
      queue := queue - {id};
      queueHead := node.next;
      if node.next.Some? {
        SetExistingNodePrev(node.next.value, None);
      } else {
        queueTail := None;
      }
      entries := entries - {node.account};
      length := length - 1;
      order := Dropped(order, 0);
      assert queue == Cut(old(queue), id) by {
        CutOfHead(old(queue), id);
      }
      r := Some(Item(node.account, node.amount));
    }

    /** Takes an account's request out of the queue, wherever it stands. */
    method RemoveAccount(a: Account) returns (r: Option<nat>)
      requires Valid()
      modifies this
      ensures Valid()
      ensures var k := IndexOf(old(Contents()), a);
              r == if k < |old(Contents())| then Some(old(Contents())[k].amount) else None
      ensures Contents() == Apply(old(Contents()), Remove(a))
      ensures nextQueueNodeId == old(nextQueueNodeId)
    {
      hide Items, IndexOf, Increasing, Linked, Indexed;
      IndexFinds(queue, order, entries, a);
      if a !in entries {
        return None;
      }
      ghost var k := IndexOf(Contents(), a);
      CutAll(length, nextQueueNodeId, queue, queueHead, queueTail, entries, order, k);
      var id := entries[a];
      entries := entries - {a};
      var node := queue[id];
      queue := queue - {id};
      if node.next.Some? {
        SetExistingNodePrev(node.next.value, node.prev);
      } else {
        queueTail := node.prev;
      }
      if node.prev.Some? {
        SetExistingNodeNext(node.prev.value, node.next);
      } else {
        queueHead := node.next;
      }
      length := length - 1;
      order := Dropped(order, k);
      assert queue == Cut(old(queue), id);
      r := Some(node.amount);
    }

    /** It fails, where the source panics, exactly when a new node is needed and the
        node ids are used up. */
    method Insert(a: Account, amount: nat) returns (ok: bool)
      requires Valid()
      modifies this
      ensures Valid()
      ensures ok <==> Has(old(Contents()), a) || old(nextQueueNodeId) < U32_MAX
      ensures ok ==> Contents() == Apply(old(Contents()), InsertOrUpdate(a, amount))
      ensures ok ==> nextQueueNodeId == old(nextQueueNodeId) + if Has(old(Contents()), a) then 0 else 1
      ensures !ok ==> Contents() == old(Contents()) && nextQueueNodeId == old(nextQueueNodeId)
    {
      hide Items, IndexOf, Increasing, Linked, Indexed;
      IndexFinds(queue, order, entries, a);
      ok := true;
      if a !in entries && nextQueueNodeId == U32_MAX {
        return false;
      }
      if a in entries {
        ReamountConsistent(length, nextQueueNodeId, queue, queueHead, queueTail, entries, order,
                           IndexOf(Contents(), a), amount);
        var id := entries[a];
        queue := queue[id := queue[id].(amount := amount)];
      } else {
        AppendConsistent(length, nextQueueNodeId, queue, queueHead, queueTail, entries, order, a, amount);
        var id := nextQueueNodeId;
        nextQueueNodeId := nextQueueNodeId + 1;
        if queueTail.Some? {
          SetExistingNodeNext(queueTail.value, Some(id));
        }
        var node := Node(a, amount, queueTail, None);
        if queueHead.None? {
          queueHead := Some(id);
        }
        queueTail := Some(id);
        queue := queue[id := node];
        entries := entries[a := id];
        length := length + 1;
        order := order + [id];
        assert queue == AppendNode(old(queue), old(queueTail), id, a, amount);
      }
    }

    /** Walks the list from the head; the walk ends. */
    method GetStatus() returns (depth: nat, len: nat)
      requires Valid()
      ensures depth == Depth(Contents()) && len == |Contents()|
    {
      hide Items, Linked, Indexed, Increasing;
      depth := 0;
      var cursor := queueHead;
      ghost var i := 0;
      while cursor.Some?
        invariant 0 <= i <= |order|
        invariant cursor == if i < |order| then Some(order[i]) else None
        invariant depth == Depth(Contents()[..i])
        decreases |order| - i
      {
        LinkedPlace(queue, order, i);
        var node := queue[cursor.value];
        assert Contents()[..i + 1][..i] == Contents()[..i];
        depth := depth + node.amount;
        cursor := node.next;
        i := i + 1;
      }
      assert Contents()[..i] == Contents();
      len := length;
    }

    /** The place of an account, the sum of all requests ahead of it, and its
        amount; the walk always finds an account that the index knows. */
    method GetRequestStatus(a: Account) returns (r: Option<RequestStatus>)
      requires Valid()
      ensures var k := IndexOf(Contents(), a);
              r == if k < |Contents()|
                   then Some(RequestStatus(k, Depth(Contents()[..k]), Contents()[k].amount)) else None
    {
      hide Items, IndexOf, Linked, Indexed, Increasing;
      IndexFinds(queue, order, entries, a);
      if a !in entries {
        return None;
      }
      var index, depth := 0, 0;
      var cursor := queueHead;
      while cursor.Some?
        invariant 0 <= index <= IndexOf(Contents(), a)
        invariant cursor == if index < |order| then Some(order[index]) else None
        invariant depth == Depth(Contents()[..index])
        decreases |order| - index
      {
        LinkedPlace(queue, order, index);
        var node := queue[cursor.value];
        if node.account == a {
          return Some(RequestStatus(index, depth, node.amount));
        }
        assert Contents()[..index + 1][..index] == Contents()[..index];
        depth := depth + node.amount;
        cursor := node.next;
        index := index + 1;
      }
      assert false;
    }

    /** Any run of operations on the linked structure does what the same run does
        to a plain sequence, and fails exactly when it appends more often than there
        are node ids left. */
    method Execute(ops: seq<Operation>) returns (ok: bool)
      requires Valid()
      modifies this
      ensures ok <==> old(nextQueueNodeId) + Appends(old(Contents()), ops) <= U32_MAX
      ensures ok ==> Valid() && Contents() == Run(old(Contents()), ops)
    {
      hide Consistent, Items, IndexOf, Has;
      for i := 0 to |ops|
        invariant Valid() && nextQueueNodeId == old(nextQueueNodeId) + Appends(old(Contents()), ops[..i])
        invariant Contents() == Run(old(Contents()), ops[..i])
      {
        assert ops[..i + 1][..i] == ops[..i];
        match ops[i] {
          case Pop => var _ := PopFront();
          case Remove(a) => var _ := RemoveAccount(a);
          case InsertOrUpdate(a, amount) =>
            ok := Insert(a, amount);
            if !ok {
              AppendsGrow(old(Contents()), ops, i + 1);
              return false;
            }
          case SetHead(amount) => var _ := MutHead(x => (amount, x));
        }
      }
      assert ops[..|ops|] == ops;
      ok := true;
    }
  }
}
