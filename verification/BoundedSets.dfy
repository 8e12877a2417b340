/** `BoundedSet`: an insertion-ordered set that evicts its oldest item at a strict capacity. */
module BoundedSets {
  import opened Domain

  datatype Op<Item> = Add(item: Item) | Discard(item: Item)

  function Without<Item(==)>(items: seq<Item>, x: Item): seq<Item> {
    if items == [] then []
    else (if items[0] == x then [] else [items[0]]) + Without(items[1..], x)
  }

  // ---- one step ----

  function Added<Item(==)>(capacity: nat, items: seq<Item>, x: Item): seq<Item> {
    if x in items then Without(items, x) + [x]
    else if |items| + 1 > capacity then (items + [x])[1..]
    else items + [x]
  }

  function Stepped<Item(==)>(capacity: nat, items: seq<Item>, op: Op<Item>): seq<Item> {
    match op
    case Add(x) => Added(capacity, items, x)
    case Discard(x) => Without(items, x)
  }

  function Contents<Item(==)>(capacity: nat, ops: seq<Op<Item>>): seq<Item> {
    if ops == [] then [] else Stepped(capacity, Contents(capacity, ops[..|ops| - 1]), ops[|ops| - 1])
  }

  /** How many items were inserted that were not in the set at that moment. */
  function Inserted<Item(==)>(capacity: nat, ops: seq<Op<Item>>): nat {
    if ops == [] then 0
    else
      var before, op := ops[..|ops| - 1], ops[|ops| - 1];
      Inserted(capacity, before) + (if op.Add? && op.item !in Contents(capacity, before) then 1 else 0)
  }

  /** How many discards found their item. */
  function Removed<Item(==)>(capacity: nat, ops: seq<Op<Item>>): nat {
    if ops == [] then 0
    else
      var before, op := ops[..|ops| - 1], ops[|ops| - 1];
      Removed(capacity, before) + (if op.Discard? && op.item in Contents(capacity, before) then 1 else 0)
  }

  // ---- removing one item ----

  ghost predicate Distinct<Item>(items: seq<Item>) {
    forall i, j | 0 <= i < j < |items| :: items[i] != items[j]
  }

  lemma {:induction false} WithoutAbsent<Item>(items: seq<Item>, x: Item)
    requires x !in items
    ensures Without(items, x) == items
  {
    if items != [] { WithoutAbsent(items[1..], x); }
  }

  lemma {:induction false} WithoutAppend<Item>(a: seq<Item>, b: seq<Item>, x: Item)
    ensures Without(a + b, x) == Without(a, x) + Without(b, x)
  {
    if a == [] {
      assert a + b == b;
    } else {
      assert (a + b)[1..] == a[1..] + b;
      WithoutAppend(a[1..], b, x);
    }
  }

  lemma {:induction false} WithoutIsExact<Item>(items: seq<Item>, x: Item)
    requires Distinct(items)
    ensures Distinct(Without(items, x))
    ensures forall y :: y in Without(items, x) <==> y in items && y != x
    ensures |Without(items, x)| == |items| - (if x in items then 1 else 0)
  {
    if items != [] {
      var rest := items[1..];
      assert items == [items[0]] + rest;
      assert forall i | 0 <= i < |rest| :: rest[i] == items[i + 1];
      WithoutIsExact(rest, x);
      assert items[0] !in rest;
    }
  }

  // ---- the object ----

  class BoundedSet<Item(==)> {
    const capacity: nat
    var evictions: nat
    /** The keys of the ordered dictionary, oldest first. */
    var items: seq<Item>

    /** Every operation so far. */
    ghost var ops: seq<Op<Item>>

    ghost predicate Valid()
      reads this
    {
      && capacity >= 1 && items == Contents(capacity, ops) && Distinct(items) && |items| <= capacity
      && evictions + |items| + Removed(capacity, ops) == Inserted(capacity, ops)
    }

    constructor (capacity: nat)
      requires capacity >= 1
      ensures Valid() && this.capacity == capacity && ops == []
    {
      this.capacity := capacity;
      evictions, items, ops := 0, [], [];
    }

    /** The constructor as callers meet it: a capacity below one is an error. */
    static method Create(capacity: int) returns (r: Result<BoundedSet<Item>, string>)
      ensures r.Err? <==> capacity < 1
      ensures r.Ok? ==> fresh(r.value) && r.value.Valid() && r.value.capacity == capacity && r.value.ops == []
    {
      if capacity < 1 {
        return Err("bounded-set capacity must be positive");
      }
      var s := new BoundedSet<Item>(capacity);
      return Ok(s);
    }

    predicate Contains(item: Item)
      reads this
    {
      item in items
    }

    method AddItem(item: Item)
      requires Valid()
      modifies this
      ensures Valid() && ops == old(ops) + [Add(item)]
    {
      ghost var before := ops;
      ops := ops + [Add(item)];
      assert ops[..|before|] == before;
      WithoutIsExact(items, item);
      if item in items {
        items := Without(items, item) + [item];
        return;
      }
      items := items + [item];
      if |items| > capacity {
        items := items[1..];
        evictions := evictions + 1;
      }
    }

    method DiscardItem(item: Item)
      requires Valid()
      modifies this
      ensures Valid() && ops == old(ops) + [Discard(item)]
    {
      ghost var before := ops;
      ops := ops + [Discard(item)];
      assert ops[..|before|] == before;
      WithoutIsExact(items, item);
      items := Without(items, item);
    }
  }

  // ---- recency ----

  /** The distinct items of a history, by most recent add. */
  function ByRecency<Item(==)>(history: seq<Item>): seq<Item> {
    if history == [] then []
    else var x := history[|history| - 1]; Without(ByRecency(history[..|history| - 1]), x) + [x]
  }

  function LastOf<Item>(items: seq<Item>, n: nat): seq<Item> {
    if |items| <= n then items else items[|items| - n..]
  }

  function Adds<Item>(history: seq<Item>): seq<Op<Item>> {
    seq(|history|, i requires 0 <= i < |history| => Add(history[i]))
  }

  lemma {:induction false} ByRecencyIsExact<Item>(history: seq<Item>)
    ensures Distinct(ByRecency(history))
    ensures forall x :: x in ByRecency(history) <==> x in history
  {
    if history != [] {
      var n := |history| - 1;
      ByRecencyIsExact(history[..n]);
      WithoutIsExact(ByRecency(history[..n]), history[n]);
      assert history == history[..n] + [history[n]];
    }
  }

  lemma LastOfAppend<Item>(head: seq<Item>, tail: seq<Item>, n: nat)
    requires |tail| == n || (|tail| <= n && head == [])
    ensures LastOf(head + tail, n) == tail
  {}

  lemma RefreshInLast<Item>(capacity: nat, head: seq<Item>, kept: seq<Item>, x: Item)
    requires |kept| == capacity || (|kept| <= capacity && head == [])
    requires Distinct(kept) && x in kept && x !in head
    ensures Without(kept, x) + [x] == LastOf(Without(head + kept, x) + [x], capacity)
  {
    WithoutAppend(head, kept, x);
    WithoutAbsent(head, x);
    WithoutIsExact(kept, x);
    var tail := Without(kept, x) + [x];
    assert Without(head + kept, x) + [x] == head + tail;
    LastOfAppend(head, tail, capacity);
  }

  lemma InsertInLast<Item>(capacity: nat, head: seq<Item>, kept: seq<Item>, x: Item)
    requires capacity >= 1 && (|kept| == capacity || (|kept| < capacity && head == []))
    requires x !in kept
    ensures Added(capacity, kept, x) == LastOf(Without(head + kept, x) + [x], capacity)
  {
    WithoutAppend(head, kept, x);
    WithoutAbsent(kept, x);
    var h := Without(head, x);
    if |kept| == capacity {
      var tail := (kept + [x])[1..];
      assert Without(head + kept, x) + [x] == (h + [(kept + [x])[0]]) + tail;
      LastOfAppend(h + [(kept + [x])[0]], tail, capacity);
    } else {
      assert Without(head + kept, x) + [x] == h + (kept + [x]);
      LastOfAppend(h, kept + [x], capacity);
    }
  }

  lemma NotInBoth<Item>(head: seq<Item>, tail: seq<Item>, x: Item)
    requires Distinct(head + tail) && x in tail
    ensures x !in head
  {
    var k :| 0 <= k < |tail| && tail[k] == x;
    assert (head + tail)[|head| + k] == x;
    assert forall i | 0 <= i < |head| :: (head + tail)[i] == head[i];
  }

  lemma DistinctTail<Item>(head: seq<Item>, tail: seq<Item>)
    requires Distinct(head + tail)
    ensures Distinct(tail)
  {
    assert forall i | 0 <= i < |tail| :: tail[i] == (head + tail)[|head| + i];
  }

  /** Adding to the last `capacity` items of a list gives the last `capacity` items of the updated list. */
  lemma AddToLast<Item>(capacity: nat, all: seq<Item>, x: Item)
    requires capacity >= 1 && Distinct(all)
    ensures Added(capacity, LastOf(all, capacity), x) == LastOf(Without(all, x) + [x], capacity)
  {
    var kept := LastOf(all, capacity);
    var head := all[..|all| - |kept|];
    assert all == head + kept;
    DistinctTail(head, kept);
    if x in kept {
      NotInBoth(head, kept, x);
      RefreshInLast(capacity, head, kept, x);
    } else {
      InsertInLast(capacity, head, kept, x);
    }
  }

  /** After any adds the set holds, in order, the last min(capacity, distinct) distinct items by most recent add. */
  lemma {:induction false} HoldsTheMostRecent<Item>(capacity: nat, history: seq<Item>)
    requires capacity >= 1
    ensures Contents(capacity, Adds(history)) == LastOf(ByRecency(history), capacity)
  {
    if history == [] {
      assert Adds(history) == [];
    } else {
      var n := |history| - 1;
      assert Adds(history)[..n] == Adds(history[..n]);
      HoldsTheMostRecent(capacity, history[..n]);
      ByRecencyIsExact(history[..n]);
      AddToLast(capacity, ByRecency(history[..n]), history[n]);
    }
  }

  // ---- a smaller set is a suffix of a larger one ----

  ghost predicate IsSuffix<Item>(small: seq<Item>, large: seq<Item>) {
    |small| <= |large| && large[|large| - |small|..] == small
  }

  lemma {:induction false} ContentsAreDistinct<Item>(capacity: nat, ops: seq<Op<Item>>)
    requires capacity >= 1
    ensures Distinct(Contents(capacity, ops)) && |Contents(capacity, ops)| <= capacity
  {
    if ops != [] {
      var before, op := ops[..|ops| - 1], ops[|ops| - 1];
      ContentsAreDistinct(capacity, before);
      WithoutIsExact(Contents(capacity, before), op.item);
    }
  }

  lemma SuffixOfAppend<Item>(head: seq<Item>, tail: seq<Item>)
    ensures IsSuffix(tail, head + tail)
  {}

  lemma DroppedSuffix<Item>(small: seq<Item>, large: seq<Item>)
    requires IsSuffix(small, large) && small != []
    ensures IsSuffix(small[1..], large)
    ensures |small| < |large| ==> IsSuffix(small, large[1..])
    ensures IsSuffix(small[1..], large[1..])
  {}

  lemma DiscardKeepsSuffix<Item>(head: seq<Item>, small: seq<Item>, x: Item)
    ensures IsSuffix(Without(small, x), Without(head + small, x))
  {
    WithoutAppend(head, small, x);
    SuffixOfAppend(Without(head, x), Without(small, x));
  }

  lemma RefreshKeepsSuffix<Item>(head: seq<Item>, small: seq<Item>, x: Item)
    ensures IsSuffix(Without(small, x) + [x], Without(head + small, x) + [x])
  {
    WithoutAppend(head, small, x);
    assert Without(head + small, x) + [x] == Without(head, x) + (Without(small, x) + [x]);
    SuffixOfAppend(Without(head, x), Without(small, x) + [x]);
  }

  function Cut<Item>(items: seq<Item>, capacity: nat): seq<Item> {
    if |items| > capacity then items[1..] else items
  }

  lemma CutKeepsSuffix<Item>(c: nat, d: nat, small: seq<Item>, large: seq<Item>)
    requires 1 <= c <= d && small != [] && IsSuffix(small, large)
    ensures IsSuffix(Cut(small, c), Cut(large, d))
  {}

  lemma AddKeepsSuffix<Item>(c: nat, d: nat, head: seq<Item>, small: seq<Item>, x: Item)
    requires 1 <= c <= d && x !in small
    ensures IsSuffix(Cut(small + [x], c), Cut(head + (small + [x]), d))
    ensures |head + small| <= d && x in head ==>
      IsSuffix(Cut(small + [x], c), Without(head + small, x) + [x])
  {
    SuffixOfAppend(head, small + [x]);
    CutKeepsSuffix(c, d, small + [x], head + (small + [x]));
    WithoutAbsent(small, x);
    RefreshKeepsSuffix(head, small, x);
    DroppedSuffix(small + [x], Without(head + small, x) + [x]);
  }

  lemma StepKeepsSuffix<Item>(c: nat, d: nat, small: seq<Item>, large: seq<Item>, op: Op<Item>)
    requires 1 <= c <= d && |small| <= c && |large| <= d && IsSuffix(small, large)
    ensures IsSuffix(Stepped(c, small, op), Stepped(d, large, op))
  {
    var head := large[..|large| - |small|];
    assert large == head + small;
    match op {
      case Discard(x) => DiscardKeepsSuffix(head, small, x);
      case Add(x) =>
        if x in small {
          assert x in large;
          RefreshKeepsSuffix(head, small, x);
        } else {
          AddKeepsSuffix(c, d, head, small, x);
          assert large + [x] == head + (small + [x]);
          assert x in large <==> x in head;
        }
    }
  }

  /** For the same operations, what a smaller set holds is always a suffix of what a larger one holds. */
  lemma {:induction false} SmallerIsSuffixOfLarger<Item>(c: nat, d: nat, ops: seq<Op<Item>>)
    requires 1 <= c <= d
    ensures IsSuffix(Contents(c, ops), Contents(d, ops))
  {
    if ops != [] {
      var before := ops[..|ops| - 1];
      SmallerIsSuffixOfLarger(c, d, before);
      ContentsAreDistinct(c, before);
      ContentsAreDistinct(d, before);
      StepKeepsSuffix(c, d, Contents(c, before), Contents(d, before), ops[|ops| - 1]);
    }
  }
}
