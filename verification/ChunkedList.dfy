/**
 The append-only list that stores several items per storage slot, and its
 double-ended iterator. Both are shown to behave as a plain sequence.
 */
module ChunkedList {
  import opened Arith

  // ---- Chunks as one sequence ----

  function Flatten<T>(chunks: seq<seq<T>>): (r: seq<T>) {
    if chunks == [] then [] else Flatten(chunks[..|chunks| - 1]) + chunks[|chunks| - 1]
  }

  /** All chunks but the last are full; the last is filled up to `next`, where
      zero stands for full. */
  ghost predicate WellChunked<T>(chunks: seq<seq<T>>, next: nat, size: nat) {
    && next < size
    && (chunks == [] ==> next == 0)
    && (forall i :: 0 <= i < |chunks| - 1 ==> |chunks[i]| == size)
    && (chunks != [] ==> |chunks[|chunks| - 1]| == if next == 0 then size else next)
  }

  function FullLength(n: nat, size: nat): (r: nat) {
    n * size
  }

  /** The chunk an index falls into, and the place inside it. */
  function Slot(index: nat, size: nat): (r: (nat, nat))
    requires size > 0
  {
    (index / size, index % size)
  }

  lemma {:induction false} FlattenFull<T>(chunks: seq<seq<T>>, size: nat)
    requires forall i :: 0 <= i < |chunks| ==> |chunks[i]| == size
    ensures |Flatten(chunks)| == FullLength(|chunks|, size)
  {
    if chunks != [] {
      FlattenFull(chunks[..|chunks| - 1], size);
      assert |chunks| * size == (|chunks| - 1) * size + size;
    }
  }

  lemma FlattenLast<T>(chunks: seq<seq<T>>)
    requires chunks != []
    ensures Flatten(chunks) == Flatten(chunks[..|chunks| - 1]) + chunks[|chunks| - 1]
  {}

  /** Which of `n` full chunks, or the one after them, an index falls into. */
  lemma SlotOf(index: nat, n: nat, size: nat)
    requires size > 0
    ensures index < FullLength(n, size) <==> Slot(index, size).0 < n
    ensures Slot(index, size).0 == n <==> FullLength(n, size) <= index < FullLength(n, size) + size
    ensures Slot(index, size).0 == n ==> Slot(index, size).1 == index - FullLength(n, size)
  {
    DivBounds(index, size);
    if index < n * size {
      DivBelow(index, size, n);
    } else {
      DivAtLeast(index, size, n);
      if index < n * size + size {
        DivBelow(index, size, n + 1);
      } else {
        DivAtLeast(index, size, n + 1);
      }
    }
  }

  /** Where the item of a given index is stored. */
  lemma {:induction false} FlattenIndex<T>(chunks: seq<seq<T>>, next: nat, size: nat, index: nat)
    requires WellChunked(chunks, next, size)
    ensures var (chunk, place) := Slot(index, size);
            && (index < |Flatten(chunks)| <==> chunk < |chunks| && place < |chunks[chunk]|)
            && (index < |Flatten(chunks)| ==> Flatten(chunks)[index] == chunks[chunk][place])
    decreases |chunks|
  {
    if chunks != [] {
      var n := |chunks| - 1;
      var init := chunks[..n];
      FlattenFull(init, size);
      FlattenLast(chunks);
      SlotOf(index, n, size);
      hide Flatten, Slot, FullLength;
      if index < FullLength(n, size) {
        assert WellChunked(init, 0, size);
        FlattenIndex(init, 0, size, index);
        assert init[Slot(index, size).0] == chunks[Slot(index, size).0];
      }
    }
  }

  lemma NextSlot(next: nat, size: nat)
    requires next < size
    ensures (next + 1) % size == if next + 1 == size then 0 else next + 1
  {
    if next + 1 == size {
      DivUnique(size, size, 1);
    } else {
      DivUnique(next + 1, size, 0);
    }
  }

  class ChunkedAppendOnlyList<T> {
    const chunkSize: nat
    var inner: seq<seq<T>>
    var lastChunkNextIndex: nat

    ghost predicate Valid()
      reads this
    {
      WellChunked(inner, lastChunkNextIndex, chunkSize)
    }

    function Contents(): (r: seq<T>)
      reads this
    {
      Flatten(inner)
    }

    constructor (chunkSize: nat)
      requires chunkSize > 0
      ensures Valid() && Contents() == [] && this.chunkSize == chunkSize
    {
      this.chunkSize := chunkSize;
      inner := [];
      lastChunkNextIndex := 0;
    }

    method Len() returns (n: nat)
      requires Valid()
      ensures n == |Contents()|
    {
      if |inner| == 0 {
        return 0;
      }
      var lastIndex := |inner| - 1;
      FlattenFull(inner[..lastIndex], chunkSize);
      n := lastIndex * chunkSize + if lastChunkNextIndex == 0 then chunkSize else lastChunkNextIndex;
    }

    method Push(item: T)
      requires Valid()
      modifies this
      ensures Valid() && Contents() == old(Contents()) + [item]
    {
      hide Flatten;
      if lastChunkNextIndex == 0 {
        inner := inner + [[item]];
        assert inner[..|inner| - 1] == old(inner);
      } else {
        var last := |inner| - 1;
        FlattenLast(inner);
        inner := inner[last := inner[last] + [item]];
        assert inner[..last] == old(inner)[..last];
      }
      FlattenLast(inner);
      NextSlot(lastChunkNextIndex, chunkSize);
      lastChunkNextIndex := (lastChunkNextIndex + 1) % chunkSize;
    }

    method Get(index: nat) returns (r: Option<T>)
      requires Valid()
      ensures r == if index < |Contents()| then Some(Contents()[index]) else None
    {
      FlattenIndex(inner, lastChunkNextIndex, chunkSize, index);
      if index / chunkSize < |inner| && index % chunkSize < |inner[index / chunkSize]| {
        r := Some(inner[index / chunkSize][index % chunkSize]);
      } else {
        r := None;
      }
    }

    /** The source aborts on an empty list. */
    method ReplaceLast(item: T)
      requires Valid() && Contents() != []
      modifies this
      ensures Valid()
      ensures Contents() == old(Contents())[..|old(Contents())| - 1] + [item]
    {
      var last := |inner| - 1;
      var chunk := inner[last];
      inner := inner[last := chunk[|chunk| - 1 := item]];
      assert inner[..last] == old(inner)[..last];
      FlattenLast(old(inner));
      FlattenLast(inner);
    }
  }

  // ---- The iterator on values ----

  /** Front and back position; the items between them are still to come. */
  datatype Cursor = Cursor(next: nat, until: nat)

  function NthSpec<T>(c: Cursor, s: seq<T>, n: nat): (r: (Option<T>, Cursor)) {
    if c.until <= c.next then (None, c)
    else if c.next + n < |s| then (Some(s[c.next + n]), Cursor(c.next + n + 1, c.until))
    else (None, c)
  }

  function NextBackSpec<T>(c: Cursor, s: seq<T>): (r: (Option<T>, Cursor)) {
    if c.until <= c.next then (None, c)
    else if c.until - 1 < |s| then (Some(s[c.until - 1]), Cursor(c.next, c.until - 1))
    else (None, c)
  }

  /** The items still to come. */
  function Remaining<T>(c: Cursor, s: seq<T>): (r: seq<T>)
    requires c.until <= |s|
  {
    if c.next <= c.until then s[c.next..c.until] else []
  }

  /** `next` takes the first and `next_back` the last of the items to come. */
  lemma EndsTaken<T>(c: Cursor, s: seq<T>)
    requires c.until <= |s|
    ensures var rest := Remaining(c, s);
            var (x, c') := NthSpec(c, s, 0);
            var (y, c'') := NextBackSpec(c, s);
            if rest == [] then x == None && c' == c && y == None && c'' == c
            else && x == Some(rest[0]) && Remaining(c', s) == rest[1..]
                 && y == Some(rest[|rest| - 1]) && Remaining(c'', s) == rest[..|rest| - 1]
  {
    if c.next < c.until {
      assert s[c.next..c.until][1..] == s[c.next + 1..c.until];
      assert s[c.next..c.until][..c.until - 1 - c.next] == s[c.next..c.until - 1];
    }
  }

  /** What the last of `k` calls of `next` returns. */
  function NextTimes<T>(c: Cursor, s: seq<T>, k: nat): (r: (Option<T>, Cursor))
    requires k > 0
    decreases k
  {
    if k == 1 then NthSpec(c, s, 0) else NextTimes(NthSpec(c, s, 0).1, s, k - 1)
  }

  lemma {:induction false} NextTimesClosed<T>(c: Cursor, s: seq<T>, k: nat)
    requires k > 0 && c.until <= |s|
    ensures NextTimes(c, s, k) ==
            if c.until <= c.next then (None, c)
            else if c.next + k <= c.until then (Some(s[c.next + k - 1]), Cursor(c.next + k, c.until))
            else (None, Cursor(c.until, c.until))
    decreases k
  {
    if k > 1 {
      NextTimesClosed(NthSpec(c, s, 0).1, s, k - 1);
    }
  }

  /** Skipping agrees with calling `next` that often exactly when it stays in
      front of the back position; past it, items already taken from the back are
      handed out again, or nothing is consumed at all. */
  lemma NthIsRepeatedNext<T>(c: Cursor, s: seq<T>, n: nat)
    requires c.until <= |s|
    ensures NthSpec(c, s, n) == NextTimes(c, s, n + 1) <==> (c.until <= c.next || c.next + n < c.until)
  {
    NextTimesClosed(c, s, n + 1);
  }

  class Iter<T> {
    const list: ChunkedAppendOnlyList<T>
    var nextIndex: nat
    var untilIndex: nat

    ghost predicate Valid()
      reads this, list
    {
      list.Valid() && untilIndex <= |list.Contents()|
    }

    function Position(): (c: Cursor)
      reads this
    {
      Cursor(nextIndex, untilIndex)
    }

    constructor (list: ChunkedAppendOnlyList<T>)
      requires list.Valid()
      ensures Valid() && this.list == list && Position() == Cursor(0, |list.Contents()|)
    {
      this.list := list;
      nextIndex := 0;
      new;
      untilIndex := list.Len();
    }

    method Nth(n: nat) returns (r: Option<T>)
      requires Valid()
      modifies this
      ensures Valid()
      ensures (r, Position()) == NthSpec(old(Position()), list.Contents(), n)
    {
      if untilIndex <= nextIndex {
        return None;
      }
      var index := nextIndex + n;
      r := list.Get(index);
      if r.Some? {
        nextIndex := index + 1;
      }
    }

    method Next() returns (r: Option<T>)
      requires Valid()
      modifies this
      ensures Valid() && (r, Position()) == NthSpec(old(Position()), list.Contents(), 0)
    {
      r := Nth(0);
    }

    method NextBack() returns (r: Option<T>)
      requires Valid()
      modifies this
      ensures Valid() && (r, Position()) == NextBackSpec(old(Position()), list.Contents())
    {
      if untilIndex <= nextIndex {
        return None;
      }
      var index := untilIndex - 1;
      r := list.Get(index);
      if r.Some? {
        untilIndex := index;
      }
    }
  }

  function Reversed<T>(s: seq<T>): (r: seq<T>) {
    if s == [] then [] else [s[|s| - 1]] + Reversed(s[..|s| - 1])
  }

  lemma {:induction false} ReversedPrepend<T>(x: T, s: seq<T>)
    ensures Reversed([x] + s) == Reversed(s) + [x]
  {
    var t := [x] + s;
    if s == [] {
      assert t[..|t| - 1] == [];
    } else {
      assert t[..|t| - 1] == [x] + s[..|s| - 1];
      ReversedPrepend(x, s[..|s| - 1]);
    }
  }

  /** What has been handed out at either end when the iterator stands at `c`. */
  ghost predicate HandedOut<T>(s: seq<T>, c: Cursor, fronts: seq<T>, backs: seq<T>) {
    && c.next == |fronts| && |fronts| + |backs| <= |s| && c.until == |s| - |backs|
    && fronts == s[..c.next]
    && backs == Reversed(s[c.until..])
  }

  lemma HandOutFront<T>(s: seq<T>, c: Cursor, fronts: seq<T>, backs: seq<T>)
    requires HandedOut(s, c, fronts, backs) && c.next < c.until
    ensures HandedOut(s, Cursor(c.next + 1, c.until), fronts + [s[c.next]], backs)
  {}

  lemma HandOutBack<T>(s: seq<T>, c: Cursor, fronts: seq<T>, backs: seq<T>)
    requires HandedOut(s, c, fronts, backs) && c.next < c.until
    ensures HandedOut(s, Cursor(c.next, c.until - 1), fronts, backs + [s[c.until - 1]])
  {
    assert s[c.until - 1..] == [s[c.until - 1]] + s[c.until..];
    ReversedPrepend(s[c.until - 1], s[c.until..]);
  }

  /** Any interleaving of calls at the two ends hands out each item exactly once:
      in order from the front, in reverse from the back, until nothing is left. */
  method Interleave<T>(list: ChunkedAppendOnlyList<T>, fromBack: seq<bool>)
    returns (fronts: seq<T>, backs: seq<T>)
    requires list.Valid()
    ensures |fronts| + |backs| == Min(|fromBack|, |list.Contents()|)
    ensures fronts == list.Contents()[..|fronts|]
    ensures backs == Reversed(list.Contents()[|list.Contents()| - |backs|..])
  {
    var it := new Iter(list);
    ghost var s := list.Contents();
    fronts, backs := [], [];
    assert HandedOut(s, it.Position(), fronts, backs);
    for i := 0 to |fromBack|
      invariant it.Valid() && it.list == list && fresh(it) && list.Contents() == s
      invariant HandedOut(s, it.Position(), fronts, backs)
      invariant |fronts| + |backs| == Min(i, |s|)
    {
      hide Flatten, Reversed, WellChunked;
      ghost var c := it.Position();
      if fromBack[i] {
        var r := it.NextBack();
        if r.Some? {
          HandOutBack(s, c, fronts, backs);
          backs := backs + [r.value];
        }
      } else {
        var r := it.Next();
        if r.Some? {
          HandOutFront(s, c, fronts, backs);
          fronts := fronts + [r.value];
        }
      }
    }
  }

  /** How the accrual loops read the list: `iter().skip(start).take(limit)`. */
  method SkipTake<T>(list: ChunkedAppendOnlyList<T>, start: nat, limit: nat) returns (r: seq<T>)
    requires list.Valid()
    ensures r == list.Contents()[Min(start, |list.Contents()|)..Min(start + limit, |list.Contents()|)]
  {
    hide Flatten;
    var it := new Iter(list);
    ghost var s := list.Contents();
    r := [];
    var skip := start;
    while |r| < limit
      invariant it.Valid() && it.list == list && fresh(it) && list.Contents() == s
      invariant skip == 0 || (skip == start && r == [])
      invariant it.Position() == Cursor(start - skip + |r|, |s|)
      invariant |r| <= limit && start - skip + |r| <= |s|
      invariant r == [] || r == s[start..start + |r|]
      decreases limit - |r|
    {
      hide WellChunked;
      var x;
      if skip > 0 {
        x := it.Nth(skip);
        skip := 0;
      } else {
        x := it.Next();
      }
      if x.None? {
        return;
      }
      r := r + [x.value];
    }
  }
}
