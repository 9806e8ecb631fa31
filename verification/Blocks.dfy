/** Prefix-compressed blocks with restart points (table/block_builder.cc,
    table/block.cc).

    An item stores a suffix and refers to its predecessor for the prefix, except
    at a restart point.  Keys are byte strings here. */
module Blocks {
  import opened Keys
  import opened Coding

  // ----- the format -----

  /** An entry whose key is `prefix + suffix`; only the length of the prefix is stored. */
  datatype Item = Item(prefix: Bytes, suffix: Bytes, value: Bytes)

  function KeyOf(it: Item): (r: Bytes) {
    it.prefix + it.suffix
  }

  function EncodeItem(it: Item): (bs: Bytes)
    ensures |bs| >= 3
  {
    Varint(|it.prefix|) + (Varint(|it.suffix|) + (Varint(|it.value|) + (it.suffix + it.value)))
  }

  function Encode(items: seq<Item>): (r: Bytes) {
    if items == [] then [] else Encode(items[..|items| - 1]) + EncodeItem(items[|items| - 1])
  }

  function Offset(items: seq<Item>, i: nat): (r: nat)
    requires i <= |items|
  {
    |Encode(items[..i])|
  }

  predicate Small(it: Item) {
    |it.prefix| < TWO_32 && |it.suffix| < TWO_32 && |it.value| < TWO_32
  }

  /** What the item leaves out is the beginning of the key in hand. */
  predicate Continues(key: Bytes, it: Item) {
    it.prefix <= key
  }

  ghost predicate ChainedAt(items: seq<Item>, i: nat) {
    i < |items| ==> Small(items[i]) && if i == 0 then items[0].prefix == [] else Continues(KeyOf(items[i - 1]), items[i])
  }

  ghost predicate Chained(items: seq<Item>) {
    forall i: nat {:trigger ChainedAt(items, i)} :: ChainedAt(items, i)
  }

  function RestartArray(restarts: seq<nat>): (r: Bytes) {
    if restarts == [] then [] else RestartArray(restarts[..|restarts| - 1]) + Fixed(restarts[|restarts| - 1], 4)
  }

  /** Restart `j` is where item `starts[j]`, stored whole, begins. */
  ghost predicate RestartAt(items: seq<Item>, starts: seq<nat>, restarts: seq<nat>, j: nat) {
    j < |starts| == |restarts| ==>
      starts[j] <= |items| && restarts[j] == Offset(items, starts[j]) && (starts[j] < |items| ==> items[starts[j]].prefix == [])
      && (j > 0 ==> starts[j - 1] < starts[j] < |items|)
  }

  ghost predicate Restarts(items: seq<Item>, starts: seq<nat>, restarts: seq<nat>) {
    |starts| == |restarts| >= 1 && starts[0] == 0 &&
    forall j: nat {:trigger RestartAt(items, starts, restarts, j)} :: RestartAt(items, starts, restarts, j)
  }

  ghost predicate Finished(contents: Bytes, items: seq<Item>, restarts: seq<nat>) {
    contents == Encode(items) + RestartArray(restarts) + Fixed(|restarts|, 4) && |contents| < TWO_32
  }

  ghost predicate GoodBlock(contents: Bytes, items: seq<Item>, starts: seq<nat>, restarts: seq<nat>) {
    Finished(contents, items, restarts) && Chained(items) && Restarts(items, starts, restarts)
  }

  // ----- building -----

  datatype Pair = Pair(key: Bytes, value: Bytes)

  ghost predicate Holds(items: seq<Item>, pairs: seq<Pair>) {
    |items| == |pairs| && forall i :: 0 <= i < |items| ==> KeyOf(items[i]) == pairs[i].key && items[i].value == pairs[i].value
  }

  lemma EncodeSnoc(items: seq<Item>, it: Item)
    ensures Encode(items + [it]) == Encode(items) + EncodeItem(it)
    ensures Offset(items + [it], |items|) == |Encode(items)| && Offset(items + [it], |items| + 1) == |Encode(items + [it])|
  {
    assert (items + [it])[..|items|] == items;
    assert (items + [it])[..|items| + 1] == items + [it];
  }

  lemma ChainedSnoc(items: seq<Item>, it: Item)
    requires Chained(items) && Small(it)
    requires if items == [] then it.prefix == [] else Continues(KeyOf(items[|items| - 1]), it)
    ensures Chained(items + [it])
  {
    forall i: nat ensures ChainedAt(items + [it], i) {
      assert ChainedAt(items, i);
    }
  }

  lemma RestartsSnoc(items: seq<Item>, it: Item, starts: seq<nat>, restarts: seq<nat>)
    requires Restarts(items, starts, restarts) && (items == [] ==> it.prefix == [])
    ensures Restarts(items + [it], starts, restarts)
  {
    forall j: nat ensures RestartAt(items + [it], starts, restarts, j) {
      assert RestartAt(items, starts, restarts, j);
      if j < |starts| {
        assert (items + [it])[..starts[j]] == items[..starts[j]];
        if j > 0 { assert starts[j] < |items|; } else { assert starts[j] == 0; }
      }
    }
  }

  lemma NewRestart(items: seq<Item>, it: Item, starts: seq<nat>, restarts: seq<nat>)
    requires Restarts(items, starts, restarts) && items != [] && it.prefix == []
    ensures Restarts(items + [it], starts + [|items|], restarts + [|Encode(items)|])
  {
    RestartsSnoc(items, it, starts, restarts);
    EncodeSnoc(items, it);
    assert RestartAt(items, starts, restarts, |starts| - 1);
    forall j: nat ensures RestartAt(items + [it], starts + [|items|], restarts + [|Encode(items)|], j) {
      LongerRestarts(items + [it], starts, restarts, |items|, j);
    }
  }

  /** One more restart point at the last item. */
  lemma LongerRestarts(items: seq<Item>, starts: seq<nat>, restarts: seq<nat>, start: nat, j: nat)
    requires |starts| == |restarts| >= 1 && RestartAt(items, starts, restarts, j)
    requires start < |items| && items[start].prefix == [] && starts[|starts| - 1] < start
    ensures RestartAt(items, starts + [start], restarts + [Offset(items, start)], j)
  {}

  /** The entries of `pairs`, each sharing some of the key before it. */
  ghost predicate Added(items: seq<Item>, pairs: seq<Pair>, lastKey: Bytes) {
    Chained(items) && Holds(items, pairs) && lastKey == if items == [] then [] else KeyOf(items[|items| - 1])
  }

  /** A restart point at every `interval`-th entry; `counter` have been added since the last. */
  ghost predicate Spaced(starts: seq<nat>, count: nat, interval: nat, counter: nat) {
    starts != [] && starts[0] == 0 && (forall j :: 0 < j < |starts| ==> starts[j] == starts[j - 1] + interval) &&
    count == starts[|starts| - 1] + counter
  }

  lemma SpacedNext(starts: seq<nat>, count: nat, interval: nat, counter: nat, restarted: bool)
    requires Spaced(starts, count, interval, if restarted then interval else counter) && (restarted ==> counter == 0)
    ensures Spaced(if restarted then starts + [count] else starts, count + 1, interval, counter + 1)
  {}

  /** What a builder has made of `pairs`. */
  ghost predicate Built(interval: nat, buffer: Bytes, items: seq<Item>, pairs: seq<Pair>, starts: seq<nat>, restarts: seq<nat>,
      counter: nat, lastKey: Bytes)
  {
    counter <= interval && buffer == Encode(items) && Restarts(items, starts, restarts) &&
    Spaced(starts, |items|, interval, counter) && Added(items, pairs, lastKey) && (items == [] <==> counter == 0)
  }

  /** The longest common prefix. */
  predicate IsShared(a: Bytes, b: Bytes, p: Bytes) {
    p <= a && p <= b && (|p| == |a| || |p| == |b| || a[|p|] != b[|p|])
  }

  class BlockBuilder {
    const interval: nat
    var buffer: Bytes
    var restarts: seq<nat>
    var counter: nat
    var lastKey: Bytes

    ghost var items: seq<Item>
    ghost var starts: seq<nat>
    ghost var pairs: seq<Pair>

    ghost predicate Valid() reads this {
      interval >= 1 && Built(interval, buffer, items, pairs, starts, restarts, counter, lastKey)
    }

    constructor (interval: nat)
      requires interval >= 1
      ensures Valid() && pairs == []
    {
      this.interval := interval;
      buffer, restarts, counter, lastKey := [], [0], 0, [];
      items, starts, pairs := [], [0], [];
      new;
      FirstRestart();
    }

    method Add(key: Bytes, value: Bytes)
      requires Valid() && |key| < TWO_32 && |value| < TWO_32
      modifies this
      ensures Valid() && pairs == old(pairs) + [Pair(key, value)]
      ensures exists it :: items == old(items) + [it] &&
                           if old(counter) == interval then it.prefix == [] else IsShared(old(lastKey), key, it.prefix)
    {
      ghost var restarted := counter == interval;
      ghost var at := if restarted then starts + [|items|] else starts;
      var it := Cut(key, value);
      AddKeeps(interval, buffer, items, pairs, starts, old(restarts), old(counter), lastKey, restarted, it, restarts, at);
      Append(it, at);
    }

    /** Leaves out what the key shares with the last one, or starts afresh. */
    method Cut(key: Bytes, value: Bytes) returns (it: Item)
      requires |key| < TWO_32 && |value| < TWO_32 && counter <= interval
      modifies this`restarts, this`counter
      ensures KeyOf(it) == key && it.value == value && Small(it) && Continues(lastKey, it)
      ensures if old(counter) == interval then it.prefix == [] && restarts == old(restarts) + [|buffer|] && counter == 0
              else IsShared(lastKey, key, it.prefix) && restarts == old(restarts) && counter == old(counter)
    {
      var shared := 0;
      if counter < interval {
        shared := SharedPrefix(lastKey, key);
      } else {
        restarts := restarts + [|buffer|];
        counter := 0;
      }
      it := Item(key[..shared], key[shared..], value);
    }

    method Append(it: Item, ghost at: seq<nat>)
      requires interval >= 1 && |it.prefix| <= |lastKey|
      requires Built(interval, buffer + EncodeItem(it), items + [it], pairs + [Pair(KeyOf(it), it.value)], at, restarts,
                     counter + 1, lastKey[..|it.prefix|] + it.suffix)
      modifies this
      ensures Valid() && items == old(items) + [it] && pairs == old(pairs) + [Pair(KeyOf(it), it.value)]
    {
      buffer := buffer + EncodeItem(it);
      items, pairs, starts := items + [it], pairs + [Pair(KeyOf(it), it.value)], at;
      lastKey := lastKey[..|it.prefix|] + it.suffix;
      counter := counter + 1;
    }

    method Finish() returns (contents: Bytes)
      requires Valid()
      modifies this`buffer
      ensures |contents| < TWO_32 ==> GoodBlock(contents, items, starts, restarts)
    {
      for i := 0 to |restarts|
        invariant buffer == Encode(items) + RestartArray(restarts[..i])
      {
        RestartStep(Encode(items), restarts, i);
        buffer := buffer + Fixed(restarts[i], 4);
      }
      assert restarts[..|restarts|] == restarts;
      buffer := buffer + Fixed(|restarts|, 4);
      contents := buffer;
    }
  }

  lemma RestartStep(front: Bytes, restarts: seq<nat>, i: nat)
    requires i < |restarts|
    ensures (front + RestartArray(restarts[..i])) + Fixed(restarts[i], 4) == front + RestartArray(restarts[..i + 1])
  {
    assert restarts[..i + 1][..i] == restarts[..i];
  }

  lemma FirstRestart()
    ensures Restarts([], [0], [0]) && Chained([])
  {
    forall j: nat ensures RestartAt([], [0], [0], j) {}
    forall i: nat ensures ChainedAt([], i) {}
  }

  method SharedPrefix(a: Bytes, b: Bytes) returns (n: nat)
    ensures n <= |a| && n <= |b| && a[..n] == b[..n] && b[..n] <= a
    ensures n == |a| || n == |b| || a[n] != b[n]
  {
    n := 0;
    var minLength := if |a| < |b| then |a| else |b|;
    while n < minLength && a[n] == b[n]
      invariant n <= minLength && a[..n] == b[..n]
    {
      n := n + 1;
    }
  }

  lemma HoldsSnoc(items: seq<Item>, it: Item, pairs: seq<Pair>)
    requires Holds(items, pairs)
    ensures Holds(items + [it], pairs + [Pair(KeyOf(it), it.value)])
  {}

  lemma AddsPair(items: seq<Item>, pairs: seq<Pair>, lastKey: Bytes, it: Item)
    requires Added(items, pairs, lastKey) && Small(it) && Continues(lastKey, it) && (items == [] ==> it.prefix == [])
    ensures |it.prefix| <= |lastKey|
    ensures Added(items + [it], pairs + [Pair(KeyOf(it), it.value)], lastKey[..|it.prefix|] + it.suffix)
  {
    HoldsSnoc(items, it, pairs);
    ChainedSnoc(items, it);
  }

  /** Adding an entry, with or without a restart point in front of it. */
  lemma AddKeeps(interval: nat, buffer: Bytes, items: seq<Item>, pairs: seq<Pair>, starts: seq<nat>, before: seq<nat>, counter: nat,
      lastKey: Bytes, restarted: bool, it: Item, restarts: seq<nat>, at: seq<nat>)
    requires interval >= 1 && Built(interval, buffer, items, pairs, starts, before, counter, lastKey)
    requires restarted == (counter == interval) && Small(it) && Continues(lastKey, it) && (restarted ==> it.prefix == [])
    requires restarts == (if restarted then before + [|buffer|] else before) && at == if restarted then starts + [|items|] else starts
    ensures |it.prefix| <= |lastKey|
    ensures Built(interval, buffer + EncodeItem(it), items + [it], pairs + [Pair(KeyOf(it), it.value)], at, restarts,
                  (if restarted then 0 else counter) + 1, lastKey[..|it.prefix|] + it.suffix)
  {
    AddsItem(items, it, starts, before, restarted, lastKey);
    AddsPair(items, pairs, lastKey, it);
    SpacedNext(starts, |items|, interval, if restarted then 0 else counter, restarted);
  }

  /** Adding an item, with or without a new restart point. */
  lemma AddsItem(items: seq<Item>, it: Item, starts: seq<nat>, restarts: seq<nat>, restarted: bool, lastKey: Bytes)
    requires Chained(items) && Restarts(items, starts, restarts) && Small(it)
    requires if items == [] then lastKey == [] else lastKey == KeyOf(items[|items| - 1])
    requires Continues(lastKey, it) && (restarted ==> items != [] && it.prefix == [])
    ensures Chained(items + [it]) && Encode(items + [it]) == Encode(items) + EncodeItem(it)
    ensures if restarted then Restarts(items + [it], starts + [|items|], restarts + [|Encode(items)|])
            else Restarts(items + [it], starts, restarts)
  {
    ChainedSnoc(items, it);
    EncodeSnoc(items, it);
    if restarted {
      NewRestart(items, it, starts, restarts);
    } else {
      RestartsSnoc(items, it, starts, restarts);
    }
  }
}
