/** Reading a block (table/block.cc): the iterator over prefix-compressed entries.

    The ghost position `pos` counts entries.  `Inv` says that the key, the value
    and the restart index shown are those of the entry at `pos`; each operation
    is specified by where it leaves `pos`: `Seek` at the linear lower bound,
    `Prev` one entry back, `Next` one entry on. */
module BlockIterators {
  import opened Keys
  import opened Coding
  import opened Blocks

  // ----- decoding an entry -----

  datatype Lengths = Lengths(shared: nat, nonShared: nat, value: nat)

  /** The three lengths at the front of an entry, one byte each when all are short. */
  function DecodeEntry(input: Bytes): (r: Got<Lengths>) {
    if |input| < 3 then Bad
    else if input[0] < 128 && input[1] < 128 && input[2] < 128 then
      Enough(Lengths(input[0], input[1], input[2]), input[3..])
    else
      match ReadVarints(input, 3)
      case Bad => Bad
      case Got(ns, rest) => if |ns| == 3 then Enough(Lengths(ns[0], ns[1], ns[2]), rest) else Bad
  }

  function ReadVarints(input: Bytes, n: nat): (r: Got<seq<nat>>)
    decreases n
  {
    if n == 0 then Got([], input)
    else
      match GetVarint(input, false)
      case Bad => Bad
      case Got(v, rest) =>
        match ReadVarints(rest, n - 1)
        case Bad => Bad
        case Got(vs, r) => Got([v] + vs, r)
  }

  lemma ReadsOne(v: nat, rest: Bytes, n: nat, vs: seq<nat>, r: Bytes)
    requires v < TWO_32 && ReadVarints(rest, n) == Got(vs, r)
    ensures ReadVarints(Varint(v) + rest, n + 1) == Got([v] + vs, r)
  {
    VarintRoundTrip(v, rest, false);
  }

  lemma ReadsThree(a: nat, b: nat, c: nat, rest: Bytes)
    requires a < TWO_32 && b < TWO_32 && c < TWO_32
    ensures ReadVarints(Varint(a) + (Varint(b) + (Varint(c) + rest)), 3) == Got([a, b, c], rest)
  {
    assert [c] + [] == [c] && [b] + [c] == [b, c] && [a] + [b, c] == [a, b, c];
    ReadsOne(c, rest, 0, [], rest);
    ReadsOne(b, Varint(c) + rest, 1, [c], rest);
    ReadsOne(a, Varint(b) + (Varint(c) + rest), 2, [b, c], rest);
  }

  function Enough(n: Lengths, rest: Bytes): (r: Got<Lengths>) {
    if |rest| < n.nonShared + n.value then Bad else Got(n, rest)
  }

  lemma ShortVarint(v: nat, rest: Bytes)
    ensures (Varint(v) + rest)[0] < 128 <==> v < 128
    ensures v < 128 ==> (Varint(v) + rest)[0] == v && (Varint(v) + rest)[1..] == rest
  {}

  /** Three short numbers take one byte each. */
  lemma ShortLengths(a: nat, b: nat, c: nat, rest: Bytes)
    ensures var input := Varint(a) + (Varint(b) + (Varint(c) + rest));
            |input| >= 3 &&
            (input[0] < 128 && input[1] < 128 && input[2] < 128 ==>
              input[0] == a && input[1] == b && input[2] == c && input[3..] == rest)
  {
    var r2 := Varint(c) + rest;
    var r1 := Varint(b) + r2;
    var input := Varint(a) + r1;
    ShortVarint(a, r1);
    ShortVarint(b, r2);
    ShortVarint(c, rest);
    if input[0] < 128 {
      assert input[1] == r1[0] && input[2..] == r1[1..];
      if input[1] < 128 {
        assert input[2] == r2[0] && input[3..] == r2[1..];
      }
    }
  }

  lemma DecodesItem(it: Item, more: Bytes)
    requires Small(it)
    ensures DecodeEntry(EncodeItem(it) + more) == Got(Lengths(|it.prefix|, |it.suffix|, |it.value|), (it.suffix + it.value) + more)
  {
    var rest := (it.suffix + it.value) + more;
    var r2 := Varint(|it.value|) + rest;
    var r1 := Varint(|it.suffix|) + r2;
    assert EncodeItem(it) + more == Varint(|it.prefix|) + r1;
    ShortLengths(|it.prefix|, |it.suffix|, |it.value|, rest);
    ReadsThree(|it.prefix|, |it.suffix|, |it.value|, rest);
  }

  // ----- offsets -----

  lemma {:induction false} SplitAt(items: seq<Item>, i: nat) returns (more: Bytes)
    requires i < |items|
    ensures Encode(items) == Encode(items[..i]) + (EncodeItem(items[i]) + more)
    ensures Offset(items, i + 1) == Offset(items, i) + |EncodeItem(items[i])|
    decreases |items|
  {
    var front, last := items[..|items| - 1], items[|items| - 1];
    assert items[..i + 1][..i] == items[..i];
    if i == |items| - 1 {
      more := [];
      assert items[..i + 1] == items && EncodeItem(last) + [] == EncodeItem(last);
    } else {
      assert front[..i] == items[..i] && front[..i + 1] == items[..i + 1];
      var m := SplitAt(front, i);
      more := m + EncodeItem(last);
      Rejoin(Encode(items[..i]), EncodeItem(items[i]), m, EncodeItem(last));
    }
  }

  lemma Rejoin(a: Bytes, b: Bytes, c: Bytes, d: Bytes)
    ensures (a + (b + c)) + d == a + (b + (c + d))
  {}

  lemma {:induction false} OffsetsRise(items: seq<Item>, i: nat, j: nat)
    requires i <= j <= |items|
    ensures Offset(items, i) + 3 * (j - i) <= Offset(items, j)
    decreases j
  {
    if i < j {
      OffsetsRise(items, i, j - 1);
      var more := SplitAt(items, j - 1);
    }
  }

  lemma OffsetsOrder(items: seq<Item>, i: nat, j: nat)
    requires i <= |items| && j <= |items|
    ensures Offset(items, i) < Offset(items, j) <==> i < j
  {
    if i < j { OffsetsRise(items, i, j); } else { OffsetsRise(items, j, i); }
  }

  lemma LastOffset(items: seq<Item>)
    ensures Offset(items, |items|) == |Encode(items)|
  {
    assert items[..|items|] == items;
  }

  // ----- the restart array -----

  lemma {:induction false} RestartArrayAt(restarts: seq<nat>, i: nat)
    requires i < |restarts|
    ensures |RestartArray(restarts)| == 4 * |restarts|
    ensures RestartArray(restarts)[4 * i..4 * i + 4] == Fixed(restarts[i], 4)
    decreases |restarts|
  {
    var front := restarts[..|restarts| - 1];
    if i < |restarts| - 1 {
      RestartArrayAt(front, i);
    } else if front != [] {
      RestartArrayAt(front, 0);
    }
  }

  function NumRestarts(contents: Bytes): (r: nat)
    requires |contents| >= 4
  {
    FixedValue(contents[|contents| - 4..])
  }

  function RestartPoint(contents: Bytes, limit: nat, i: nat): (r: nat)
    requires limit + 4 * i + 4 <= |contents|
  {
    FixedValue(contents[limit + 4 * i..limit + 4 * i + 4])
  }

  lemma FixedRead(v: nat)
    requires v < TWO_32
    ensures FixedValue(Fixed(v, 4)) == v
  {
    assert Pow256(2) == 65536;
    assert Pow256(4) == TWO_32;
    FixedRoundTrip(v, 4);
  }

  lemma BlockSizes(contents: Bytes, items: seq<Item>, starts: seq<nat>, restarts: seq<nat>)
    requires GoodBlock(contents, items, starts, restarts)
    ensures |contents| == |Encode(items)| + 4 * |restarts| + 4 && |restarts| >= 1
  {
    RestartArrayAt(restarts, 0);
  }

  /** The last number of a block says how many restart points precede it. */
  lemma CountsRestarts(contents: Bytes, items: seq<Item>, starts: seq<nat>, restarts: seq<nat>)
    requires GoodBlock(contents, items, starts, restarts)
    ensures |contents| >= 4 && NumRestarts(contents) == |restarts|
  {
    BlockSizes(contents, items, starts, restarts);
    assert contents[|contents| - 4..] == Fixed(|restarts|, 4);
    FixedRead(|restarts|);
  }

  lemma RestartBytes(data: Bytes, restarts: seq<nat>, i: nat)
    requires i < |restarts|
    ensures var contents := data + RestartArray(restarts) + Fixed(|restarts|, 4);
            |data| + 4 * i + 4 <= |contents| && contents[|data| + 4 * i..|data| + 4 * i + 4] == Fixed(restarts[i], 4)
  {
    RestartArrayAt(restarts, i);
    MiddleSlice(data, RestartArray(restarts), Fixed(|restarts|, 4), 4 * i, 4 * i + 4);
  }

  lemma RestartIsInside(items: seq<Item>, starts: seq<nat>, restarts: seq<nat>, i: nat)
    requires Restarts(items, starts, restarts) && i < |restarts|
    ensures starts[i] <= |items| && restarts[i] == Offset(items, starts[i]) <= |Encode(items)|
  {
    assert RestartAt(items, starts, restarts, i);
    OffsetsRise(items, starts[i], |items|);
    LastOffset(items);
  }

  lemma ReadsRestart(contents: Bytes, items: seq<Item>, starts: seq<nat>, restarts: seq<nat>, i: nat)
    requires GoodBlock(contents, items, starts, restarts) && i < |restarts|
    ensures |Encode(items)| + 4 * i + 4 <= |contents|
    ensures starts[i] <= |items| && RestartPoint(contents, |Encode(items)|, i) == Offset(items, starts[i])
  {
    RestartBytes(Encode(items), restarts, i);
    RestartIsInside(items, starts, restarts, i);
    FixedRead(restarts[i]);
  }

  lemma MiddleSlice(a: Bytes, b: Bytes, c: Bytes, i: nat, j: nat)
    requires i <= j <= |b|
    ensures (a + b + c)[|a| + i..|a| + j] == b[i..j]
  {}

  // ----- one entry -----

  /** What stands in the block from item `i` on. */
  lemma EntryAt(items: seq<Item>, i: nat)
    requires i < |items| && Chained(items)
    ensures Offset(items, i) < Offset(items, i + 1) <= |Encode(items)|
    ensures var it, start, end := items[i], Offset(items, i), Offset(items, i + 1);
            var d := DecodeEntry(Encode(items)[start..]);
            d.Got? && d.value == Lengths(|it.prefix|, |it.suffix|, |it.value|) &&
            |d.rest| <= |Encode(items)| &&
            var p := |Encode(items)| - |d.rest|;
            p + |it.suffix| + |it.value| == end && Encode(items)[p..p + |it.suffix|] == it.suffix
            && Encode(items)[p + |it.suffix|..end] == it.value
  {
    var it := items[i];
    var more := SplitAt(items, i);
    assert ChainedAt(items, i);
    DropFront(Encode(items[..i]), EncodeItem(it) + more);
    DecodesItem(it, more);
    ItemSplits(it);
    RestSlices(Encode(items[..i]), EncodeItem(it), LengthsOf(it), it.suffix, it.value, more);
  }

  lemma DropFront(a: Bytes, b: Bytes)
    ensures (a + b)[|a|..] == b
  {}

  function LengthsOf(it: Item): (r: Bytes) {
    Varint(|it.prefix|) + (Varint(|it.suffix|) + Varint(|it.value|))
  }

  lemma ItemSplits(it: Item)
    ensures EncodeItem(it) == LengthsOf(it) + (it.suffix + it.value)
  {}

  lemma RestSlices(pre: Bytes, entry: Bytes, lengths: Bytes, suffix: Bytes, value: Bytes, more: Bytes)
    requires entry == lengths + (suffix + value)
    ensures var all := pre + (entry + more); var p := |all| - |(suffix + value) + more|;
            p == |pre| + |lengths| && all[p..p + |suffix|] == suffix && all[p + |suffix|..p + |suffix| + |value|] == value
  {
    var all := pre + (entry + more);
    var p := |pre| + |lengths|;
    assert all[p..] == (suffix + value) + more;
  }

  lemma SameTail(data: Bytes, tail: Bytes, at: nat)
    requires at <= |data|
    ensures (data + tail)[at..|data|] == data[at..]
  {}

  lemma SlicesOf(a: Bytes, b: Bytes, i: nat, j: nat)
    requires i <= j <= |a|
    ensures (a + b)[i..j] == a[i..j]
  {}

  // ----- the order of a block: `rank` places keys in its comparator's order -----

  ghost predicate SortedBy(items: seq<Item>, rank: Bytes -> real) {
    forall i, j :: 0 <= i < j < |items| ==> rank(KeyOf(items[i])) < rank(KeyOf(items[j]))
  }

  /** The linear lower bound. */
  ghost predicate IsLowerBound(items: seq<Item>, rank: Bytes -> real, target: Bytes, p: nat) {
    p <= |items| && (forall i :: 0 <= i < p ==> rank(KeyOf(items[i])) < rank(target)) &&
    (p < |items| ==> rank(target) <= rank(KeyOf(items[p])))
  }

  class Iter {
    const contents: Bytes
    const limit: nat  // where the restart array begins
    const num: nat
    const rank: Bytes -> real
    var current: nat
    var restartIndex: nat
    var key: Bytes
    var valueStart: nat
    var valueEnd: nat

    ghost const items: seq<Item>
    ghost const starts: seq<nat>
    ghost const restarts: seq<nat>
    ghost var pos: nat

    ghost predicate Good() reads this {
      GoodBlock(contents, items, starts, restarts) && limit == |Encode(items)| && num == |restarts|
    }

    ghost predicate Inv() reads this {
      Good() && pos <= |items| && if pos < |items| then Shows(pos) else current == limit
    }

    /** The fields hold item `i`. */
    ghost predicate Shows(i: nat) reads this
      requires i < |items|
    {
      current == Offset(items, i) && key == KeyOf(items[i]) && valueEnd == Offset(items, i + 1) &&
      valueStart + |items[i].value| == valueEnd <= |contents| && contents[valueStart..valueEnd] == items[i].value &&
      restartIndex < num
    }

    /** The next entry to parse is item `i`, and the key in hand continues to it. */
    ghost predicate Ready(i: nat) reads this {
      Good() && i <= |items| && valueEnd == Offset(items, i) && restartIndex < num &&
      (i < |items| ==> Continues(key, items[i]))
    }

    constructor (contents: Bytes, rank: Bytes -> real, ghost items: seq<Item>, ghost starts: seq<nat>, ghost restarts: seq<nat>)
      requires GoodBlock(contents, items, starts, restarts)
      ensures Inv() && pos == |items| && this.contents == contents && this.rank == rank && this.items == items
    {
      CountsRestarts(contents, items, starts, restarts);
      BlockSizes(contents, items, starts, restarts);
      this.contents, this.rank, this.items, this.starts, this.restarts := contents, rank, items, starts, restarts;
      this.num := NumRestarts(contents);
      this.limit := |contents| - (1 + NumRestarts(contents)) * 4;
      this.current, this.restartIndex := |contents| - (1 + NumRestarts(contents)) * 4, NumRestarts(contents);
      this.key, this.valueStart, this.valueEnd, this.pos := [], 0, 0, |items|;
    }

    predicate Valid() reads this {
      current < limit
    }

    lemma ValidMeans()
      requires Inv()
      ensures Valid() <==> pos < |items|
    {
      if pos < |items| { EntryAt(items, pos); }
    }

    method GetRestartPoint(i: nat) returns (offset: nat)
      requires Good() && i < num
      ensures starts[i] <= |items| && offset == Offset(items, starts[i])
    {
      ReadsRestart(contents, items, starts, restarts, i);
      offset := RestartPoint(contents, limit, i);
    }

    method SeekToRestartPoint(i: nat)
      requires Good() && i < num
      modifies this
      ensures starts[i] <= |items| && Ready(starts[i])
    {
      key, restartIndex := [], i;
      var offset := GetRestartPoint(i);
      valueStart, valueEnd := offset, offset;
      assert RestartAt(items, starts, restarts, i);
    }

    /** The bytes of entry `i`, in the block itself. */
    lemma EntryHere(i: nat, at: nat)
      requires Good() && i < |items| && at == Offset(items, i)
      ensures at < limit <= |contents|
      ensures var d := DecodeEntry(contents[at..limit]); var it := items[i];
              d.Got? && d.value == Lengths(|it.prefix|, |it.suffix|, |it.value|) && |d.rest| <= limit &&
              var p := limit - |d.rest|;
              p + |it.suffix| + |it.value| == Offset(items, i + 1) <= |contents| && contents[p..p + |it.suffix|] == it.suffix
              && contents[p + |it.suffix|..p + |it.suffix| + |it.value|] == it.value
    {
      BlockSizes(contents, items, starts, restarts);
      EntryAt(items, i);
      var data, tail := Encode(items), RestartArray(restarts) + Fixed(|restarts|, 4);
      assert contents == data + tail;
      SameTail(data, tail, at);
      var it, d := items[i], DecodeEntry(data[at..]);
      var p := limit - |d.rest|;
      SlicesOf(data, tail, p, p + |it.suffix|);
      SlicesOf(data, tail, p + |it.suffix|, p + |it.suffix| + |it.value|);
    }

    method ReadEntry(ghost i: nat) returns (n: Lengths, p: nat)
      requires Good() && i < |items| && current == Offset(items, i)
      ensures var it := items[i];
              n == Lengths(|it.prefix|, |it.suffix|, |it.value|) && p + |it.suffix| + |it.value| == Offset(items, i + 1) <= |contents| &&
              contents[p..p + |it.suffix|] == it.suffix && contents[p + |it.suffix|..p + |it.suffix| + |it.value|] == it.value
    {
      EntryHere(i, current);
      var d := DecodeEntry(contents[current..limit]);
      n, p := d.value, limit - |d.rest|;
    }

    method TakeEntry(ghost i: nat)
      requires Ready(i) && i < |items| && current == Offset(items, i)
      modifies this`key, this`valueStart, this`valueEnd
      ensures Shows(i)
    {
      var n, p := ReadEntry(i);
      key := key[..n.shared] + contents[p..p + n.nonShared];
      valueStart, valueEnd := p + n.nonShared, p + n.nonShared + n.value;
    }

    method AdvanceRestart()
      requires Good() && restartIndex < num
      modifies this`restartIndex
      ensures restartIndex < num
    {
      while restartIndex + 1 < num
        invariant restartIndex < num
      {
        var next := GetRestartPoint(restartIndex + 1);
        if next >= current { break; }
        restartIndex := restartIndex + 1;
      }
    }

    method ParseNextKey(ghost i: nat) returns (ok: bool)
      requires Ready(i)
      modifies this
      ensures Inv() && pos == i && ok == (i < |items|) && (ok ==> Ready(i + 1))
    {
      current, pos := valueEnd, i;
      LastOffset(items);
      OffsetsOrder(items, i, |items|);
      if current >= limit {
        current, restartIndex := limit, num;
        return false;
      }
      TakeEntry(i);
      AdvanceRestart();
      assert ChainedAt(items, i + 1);
      ok := true;
    }

    method Next()
      requires Inv() && Valid()
      modifies this
      ensures Inv() && pos == old(pos) + 1
    {
      ValidMeans();
      assert ChainedAt(items, pos + 1);
      var ok := ParseNextKey(pos + 1);
    }

    method SeekToFirst()
      requires Inv()
      modifies this
      ensures Inv() && pos == 0
    {
      SeekToRestartPoint(0);
      var ok := ParseNextKey(0);
    }

    /** Parses from item `i` until an entry ends at offset `end` or later. */
    method ParseUntil(ghost i: nat, end: nat, ghost last: nat)
      requires Ready(i) && i <= last <= |items| && end == Offset(items, last) && (i < last || last == |items|)
      modifies this
      ensures Inv() && pos == if i < last then last - 1 else last
    {
      ghost var n := i;
      var more := ParseBefore(i, end, last);
      while more
        invariant Inv() && pos == n && (n < last || n == i == last) && more == (n + 1 < last)
        invariant more ==> Ready(n + 1)
        decreases last - n
      {
        n := n + 1;
        more := ParseBefore(n, end, last);
      }
    }

    /** Parses item `i`; whether it ends before offset `end`, where item `last` begins. */
    method ParseBefore(ghost i: nat, end: nat, ghost last: nat) returns (more: bool)
      requires Ready(i) && i <= last <= |items| && end == Offset(items, last) && (i < last || last == |items|)
      modifies this
      ensures Inv() && pos == i && more == (i + 1 < last) && (more ==> Ready(i + 1))
    {
      var ok := ParseNextKey(i);
      if ok { OffsetsOrder(items, i + 1, last); }
      more := ok && valueEnd < end;
    }

    method SeekToLast()
      requires Inv()
      modifies this
      ensures Inv() && pos == if items == [] then 0 else |items| - 1
    {
      SeekToRestartPoint(num - 1);
      assert RestartAt(items, starts, restarts, num - 1);
      LastOffset(items);
      ParseUntil(starts[num - 1], limit, |items|);
    }

    method Prev()
      requires Inv() && Valid()
      modifies this
      ensures Inv() && pos == if old(pos) == 0 then |items| else old(pos) - 1
    {
      ValidMeans();
      ghost var was := pos;
      var original := current;
      var point := GetRestartPoint(restartIndex);
      while point >= original
        invariant Good() && restartIndex < num && starts[restartIndex] <= |items| && point == Offset(items, starts[restartIndex])
        decreases restartIndex
      {
        OffsetsOrder(items, starts[restartIndex], was);
        if restartIndex == 0 {
          current, restartIndex, pos := limit, num, |items|;
          return;
        }
        restartIndex := restartIndex - 1;
        point := GetRestartPoint(restartIndex);
      }
      ghost var from := starts[restartIndex];
      OffsetsOrder(items, from, was);
      SeekToRestartPoint(restartIndex);
      ParseUntil(from, original, was);
    }

    method KeyAtRestart(i: nat) returns (k: Bytes)
      requires Good() && i < num && items != []
      ensures starts[i] < |items| && k == KeyOf(items[starts[i]])
    {
      var offset := GetRestartPoint(i);
      assert RestartAt(items, starts, restarts, i);
      RestartEntry(i);
      var d := DecodeEntry(contents[offset..limit]);
      var p := limit - |d.rest|;
      k := contents[p..p + d.value.nonShared];
    }

    /** Restart points hold whole keys. */
    lemma RestartEntry(i: nat)
      requires Good() && i < num && items != []
      ensures starts[i] < |items|
      ensures var it, offset := items[starts[i]], Offset(items, starts[i]);
              offset < limit <= |contents| &&
              var d := DecodeEntry(contents[offset..limit]);
              d.Got? && d.value.nonShared == |it.suffix| && |d.rest| <= limit && d.value.shared == 0 &&
              limit - |d.rest| + |it.suffix| <= |contents| &&
              contents[limit - |d.rest|..limit - |d.rest| + |it.suffix|] == KeyOf(it)
    {
      assert RestartAt(items, starts, restarts, i);
      EntryHere(starts[i], Offset(items, starts[i]));
      assert items[starts[i]].prefix + items[starts[i]].suffix == items[starts[i]].suffix;
    }

    method Seek(target: Bytes)
      requires Inv() && SortedBy(items, rank)
      modifies this
      ensures Inv() && IsLowerBound(items, rank, target, pos)
    {
      var left, right := 0, num - 1;
      while left < right
        invariant 0 <= left <= right < num && Good()
        invariant left > 0 ==> starts[left] < |items| && rank(KeyOf(items[starts[left]])) < rank(target)
      {
        var mid := (left + right + 1) / 2;
        assert RestartAt(items, starts, restarts, mid);
        var midKey := KeyAtRestart(mid);
        if rank(midKey) < rank(target) {
          left := mid;
        } else {
          right := mid - 1;
        }
      }
      SeekToRestartPoint(left);
      ScanTo(target, starts[left]);
    }

    method ScanTo(target: Bytes, ghost i: nat)
      requires Ready(i) && SortedBy(items, rank)
      requires i > 0 ==> i < |items| && rank(KeyOf(items[i])) < rank(target)
      modifies this
      ensures Inv() && IsLowerBound(items, rank, target, pos)
    {
      ghost var n := i;
      while true
        invariant Ready(n) && forall j :: 0 <= j < n ==> rank(KeyOf(items[j])) < rank(target)
        decreases |items| - n
      {
        var ok := ParseNextKey(n);
        if !ok || rank(key) >= rank(target) {
          return;
        }
        n := n + 1;
      }
    }

    method Current() returns (pair: Pair)
      requires Inv() && Valid()
      ensures pos < |items| && pair == Pair(KeyOf(items[pos]), items[pos].value)
    {
      ValidMeans();
      pair := Pair(key, contents[valueStart..valueEnd]);
    }

    /** Walking a block from its first entry gives what was added to it. */
    method ReadAll(ghost pairs: seq<Pair>) returns (all: seq<Pair>)
      requires Inv() && Holds(items, pairs)
      modifies this
      ensures all == pairs
    {
      all := [];
      SeekToFirst();
      ValidMeans();
      while Valid()
        invariant Inv() && all == pairs[..pos] && (Valid() <==> pos < |items|)
        decreases |items| - pos
      {
        all := Step(all, pairs);
      }
    }

    method Step(all: seq<Pair>, ghost pairs: seq<Pair>) returns (more: seq<Pair>)
      requires Inv() && Valid() && Holds(items, pairs) && all == pairs[..pos]
      modifies this
      ensures Inv() && pos == old(pos) + 1 && more == pairs[..pos] && (Valid() <==> pos < |items|)
    {
      var pair := Current();
      more := all + [pair];
      Next();
      ValidMeans();
    }
  }
}
