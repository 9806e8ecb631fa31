/** Bloom filters and the filter block (util/bloom.cc, table/filter_block.cc).
    The hash is any function of the key into 32 bits. */
module Filters {
  import opened Keys

  type Hash = Bytes -> bv32
  type Filter = seq<bv8>

  const WORD := 0x1_0000_0000

  // ----- bloom filters -----

  function Mask(bit: nat): (r: bv8)
    requires bit < 8
  {
    1 << bit
  }

  predicate BitAt(b: bv8, bit: nat)
    requires bit < 8
  {
    b & Mask(bit) != 0
  }

  lemma SetsBit(b: bv8, bit: nat, other: nat)
    requires bit < 8 && other < 8
    ensures BitAt(b | Mask(bit), other) <==> BitAt(b, other) || other == bit
  {
    MaskIsNonzero(bit);
    OrKeeps(b, Mask(bit), Mask(bit));
    if other != bit {
      MasksDiffer(bit, other);
      OrAddsNothing(b, Mask(bit), Mask(other));
    }
  }

  lemma MaskIs(bit: nat)
    requires bit < 8
    ensures bit == 0 ==> Mask(bit) == 1
    ensures bit == 1 ==> Mask(bit) == 2
    ensures bit == 2 ==> Mask(bit) == 4
    ensures bit == 3 ==> Mask(bit) == 8
    ensures bit == 4 ==> Mask(bit) == 16
    ensures bit == 5 ==> Mask(bit) == 32
    ensures bit == 6 ==> Mask(bit) == 64
    ensures bit == 7 ==> Mask(bit) == 128
  {}

  lemma MasksDiffer(a: nat, b: nat)
    requires a < 8 && b < 8 && a != b
    ensures Mask(a) & Mask(b) == 0
  {
    MaskIs(a);
    MaskIs(b);
  }

  lemma OrAddsNothing(b: bv8, m: bv8, o: bv8)
    requires m & o == 0
    ensures (b | m) & o == b & o
  {}

  lemma MaskIsNonzero(bit: nat)
    requires bit < 8
    ensures Mask(bit) != 0
  {}

  lemma OrKeeps(b: bv8, m: bv8, o: bv8)
    ensures b & o != 0 ==> (b | m) & o != 0
    ensures m != 0 ==> (b | m) & m != 0
  {}

  predicate Set(bs: seq<bv8>, pos: nat)
    requires pos / 8 < |bs|
  {
    BitAt(bs[pos / 8], pos % 8)
  }

  /** The bit positions a hash value probes, by double hashing. */
  function Probes(h: nat, delta: nat, k: nat, bits: nat): (r: seq<nat>)
    requires bits > 0
    decreases k
  {
    if k == 0 then [] else [h % bits] + Probes((h + delta) % WORD, delta, k - 1, bits)
  }

  lemma {:induction false} ProbesInRange(h: nat, delta: nat, k: nat, bits: nat)
    requires bits > 0
    ensures |Probes(h, delta, k, bits)| == k && forall p :: p in Probes(h, delta, k, bits) ==> p < bits
    decreases k
  {
    if k > 0 { ProbesInRange((h + delta) % WORD, delta, k - 1, bits); }
  }

  /** The hash, and its rotation right by 17 bits. */
  function HashOf(key: Bytes, hash: Hash): (r: nat) { hash(key) as nat }
  function DeltaOf(key: Bytes, hash: Hash): (r: nat) { ((hash(key) >> 17) | (hash(key) << 15)) as nat }

  ghost predicate AllSet(bs: seq<bv8>, probes: seq<nat>) {
    forall p :: p in probes ==> p / 8 < |bs| && Set(bs, p)
  }

  /** The filter's bits before its last byte, which is the number of probes. */
  ghost predicate MayMatch(filter: Filter, key: Bytes, hash: Hash) {
    |filter| >= 2 &&
    var k := filter[|filter| - 1] as nat;
    (k > 30 || AllSet(filter[..|filter| - 1], Probes(HashOf(key, hash), DeltaOf(key, hash), k, 8 * (|filter| - 1))))
  }

  method SetAll(bs0: seq<bv8>, key: Bytes, k: nat, hash: Hash) returns (bs: seq<bv8>)
    requires |bs0| > 0
    ensures |bs| == |bs0|
    ensures forall p: nat :: p / 8 < |bs| ==>
              (Set(bs, p) <==> Set(bs0, p) || p in Probes(HashOf(key, hash), DeltaOf(key, hash), k, 8 * |bs|))
  {
    var bits := 8 * |bs0|;
    var h: nat, delta: nat := HashOf(key, hash), DeltaOf(key, hash);
    bs := bs0;
    ghost var all := Probes(h, delta, k, bits);
    ProbesInRange(h, delta, k, bits);
    for j := 0 to k
      invariant |bs| == |bs0| && SetBut(bs, bs0, all, Probes(h, delta, k - j, bits))
    {
      var pos := h % bits;
      assert Probes(h, delta, k - j, bits) == [pos] + Probes((h + delta) % WORD, delta, k - j - 1, bits);
      bs := SetOne(bs, pos);
      h := (h + delta) % WORD;
    }
  }

  /** The bits of `before` and the probes are set, but for the probes in `rest`. */
  ghost predicate SetBut(bs: seq<bv8>, before: seq<bv8>, probes: seq<nat>, rest: seq<nat>) {
    |bs| == |before| && (forall p :: p in rest ==> p in probes) &&
    forall p: nat :: p / 8 < |bs| ==>
      (Set(bs, p) ==> Set(before, p) || p in probes) && (Set(before, p) || (p in probes && p !in rest) ==> Set(bs, p))
  }

  method SetOne(bs: seq<bv8>, pos: nat) returns (r: seq<bv8>)
    requires pos / 8 < |bs|
    ensures |r| == |bs|
    ensures forall p: nat :: p / 8 < |bs| ==> (Set(r, p) <==> Set(bs, p) || p == pos)
  {
    r := bs[pos / 8 := bs[pos / 8] | Mask(pos % 8)];
    forall p: nat | p / 8 < |bs| ensures Set(r, p) <==> Set(bs, p) || p == pos {
      SetsBit(bs[pos / 8], pos % 8, p % 8);
      if p / 8 == pos / 8 && p % 8 == pos % 8 { assert p == pos; }
    }
  }

  ghost function ProbesOf(key: Bytes, k: nat, bits: nat, hash: Hash): (r: seq<nat>)
    requires bits > 0
  {
    Probes(HashOf(key, hash), DeltaOf(key, hash), k, bits)
  }

  /** Some of the first `n` keys probes bit `p`. */
  ghost predicate Probed(keys: seq<Bytes>, n: nat, p: nat, k: nat, bits: nat, hash: Hash)
    requires n <= |keys| && bits > 0
  {
    exists j :: 0 <= j < n && p in ProbesOf(keys[j], k, bits, hash)
  }

  lemma ProbedNext(keys: seq<Bytes>, n: nat, p: nat, k: nat, bits: nat, hash: Hash)
    requires n < |keys| && bits > 0
    ensures Probed(keys, n + 1, p, k, bits, hash) <==> Probed(keys, n, p, k, bits, hash) || p in ProbesOf(keys[n], k, bits, hash)
  {}

  /** The bits that some key probes, and no others. */
  ghost predicate HoldsProbes(bs: seq<bv8>, keys: seq<Bytes>, n: nat, k: nat, hash: Hash)
    requires n <= |keys|
  {
    |bs| > 0 && forall p: nat :: p / 8 < |bs| ==> (Set(bs, p) <==> Probed(keys, n, p, k, 8 * |bs|, hash))
  }

  /** BloomFilterPolicy::CreateFilter, for one to thirty probes a key: exactly the
      bits that some key probes are set, in as many bytes as the keys ask for and
      eight at least, and the number of probes follows. */
  method CreateFilter(keys: seq<Bytes>, bitsPerKey: nat, k: nat, hash: Hash) returns (filter: Filter)
    requires 1 <= k <= 30
    ensures var bits := if |keys| * bitsPerKey < 64 then 64 else |keys| * bitsPerKey;
            |filter| == (bits + 7) / 8 + 1 && filter[|filter| - 1] as nat == k
    ensures HoldsProbes(filter[..|filter| - 1], keys, |keys|, k, hash)
    ensures forall key :: key in keys ==> MayMatch(filter, key, hash)
  {
    var bits := |keys| * bitsPerKey;
    if bits < 64 {
      bits := 64;
    }
    var bs := SetBits(keys, (bits + 7) / 8, k, hash);
    filter := bs + [k as bv8];
    LastByte(bs, k);
    MatchesAll(bs, keys, k, hash);
  }

  method SetBits(keys: seq<Bytes>, bytes: nat, k: nat, hash: Hash) returns (bs: seq<bv8>)
    requires bytes > 0
    ensures |bs| == bytes && HoldsProbes(bs, keys, |keys|, k, hash)
  {
    bs := seq(bytes, i => 0 as bv8);
    for i := 0 to |keys|
      invariant |bs| == bytes && HoldsProbes(bs, keys, i, k, hash)
    {
      var next := SetAll(bs, keys[i], k, hash);
      AddsProbes(bs, next, keys, i, k, hash);
      bs := next;
    }
  }

  lemma MatchesAll(bs: seq<bv8>, keys: seq<Bytes>, k: nat, hash: Hash)
    requires k <= 30 && HoldsProbes(bs, keys, |keys|, k, hash)
    ensures forall key :: key in keys ==> MayMatch(bs + [k as bv8], key, hash)
  {
    LastByte(bs, k);
    forall key | key in keys ensures AllSet(bs, ProbesOf(key, k, 8 * |bs|, hash)) {
      var j :| 0 <= j < |keys| && keys[j] == key;
      ProbesInRange(HashOf(key, hash), DeltaOf(key, hash), k, 8 * |bs|);
    }
  }

  lemma AddsProbes(bs: seq<bv8>, next: seq<bv8>, keys: seq<Bytes>, n: nat, k: nat, hash: Hash)
    requires n < |keys| && |next| == |bs| && HoldsProbes(bs, keys, n, k, hash)
    requires forall p: nat :: p / 8 < |bs| ==> (Set(next, p) <==> Set(bs, p) || p in ProbesOf(keys[n], k, 8 * |bs|, hash))
    ensures HoldsProbes(next, keys, n + 1, k, hash)
  {
    forall p: nat | p / 8 < |bs| ensures Set(next, p) <==> Probed(keys, n + 1, p, k, 8 * |bs|, hash) {
      ProbedNext(keys, n, p, k, 8 * |bs|, hash);
    }
  }

  /** An example of the positions: a hash of 0x0002_0001, which turns to 0x8001, probes
      bits 1, 2 and 3 of eight bytes. */
  lemma ExampleProbes(key: Bytes, hash: Hash)
    requires hash(key) == 0x0002_0001
    ensures ProbesOf(key, 3, 64, hash) == [1, 2, 3]
  {
    assert DeltaOf(key, hash) == 0x8001;
    assert Probes(0x0003_0003, 0x8001, 1, 64) == [3];
  }

  lemma LastByte(bs: seq<bv8>, k: nat)
    requires k <= 30
    ensures var f := bs + [k as bv8]; f[..|f| - 1] == bs && f[|f| - 1] as nat == k
  {
    SmallByte(k);
  }

  lemma SmallByte(k: nat)
    requires k <= 30
    ensures (k as bv8) as nat == k
  {}

  /** BloomFilterPolicy::KeyMayMatch. */
  method KeyMayMatch(key: Bytes, filter: Filter, hash: Hash) returns (may: bool)
    ensures may <==> MayMatch(filter, key, hash)
  {
    var len := |filter|;
    if len < 2 {
      return false;
    }
    var k := filter[len - 1] as nat;
    if k > 30 {
      return true;
    }
    may := CheckProbes(filter[..len - 1], HashOf(key, hash), DeltaOf(key, hash), k);
  }

  method CheckProbes(bs: seq<bv8>, h0: nat, delta: nat, k: nat) returns (all: bool)
    requires |bs| > 0
    ensures all <==> AllSet(bs, Probes(h0, delta, k, 8 * |bs|))
  {
    var h: nat := h0;
    for j := 0 to k
      invariant AllSet(bs, Probes(h, delta, k - j, 8 * |bs|)) <==> AllSet(bs, Probes(h0, delta, k, 8 * |bs|))
    {
      var pos := h % (8 * |bs|);
      FirstProbe(bs, h, delta, k - j);
      if !BitAt(bs[pos / 8], pos % 8) {
        return false;
      }
      h := (h + delta) % WORD;
    }
    all := true;
  }

  lemma FirstProbe(bs: seq<bv8>, h: nat, delta: nat, k: nat)
    requires |bs| > 0 && k > 0
    ensures AllSet(bs, Probes(h, delta, k, 8 * |bs|)) <==>
            Set(bs, h % (8 * |bs|)) && AllSet(bs, Probes((h + delta) % WORD, delta, k - 1, 8 * |bs|))
  {
    var pos, rest := h % (8 * |bs|), Probes((h + delta) % WORD, delta, k - 1, 8 * |bs|);
    assert Probes(h, delta, k, 8 * |bs|) == [pos] + rest;
    assert pos in [pos] + rest;
    assert forall p :: p in rest ==> p in [pos] + rest;
  }

  // ----- the filter block -----

  /** A new filter for every two kilobytes of blocks. */
  function BucketIndex(offset: nat): (r: nat)
    ensures 2048 * r <= offset < 2048 * (r + 1)
  {
    offset / 2048
  }

  lemma BucketIndexRises(a: nat, b: nat)
    requires a <= b
    ensures BucketIndex(a) <= BucketIndex(b)
  {}

  /** A finished filter block: the filters one after the other, and where each
      begins; the last offset is where they end. */
  datatype FilterBlock = FilterBlock(data: seq<bv8>, offsets: seq<nat>)

  /** No filter for no keys; otherwise one that holds the probes of the bucket's
      keys, and no others. */
  ghost predicate FilterOf(filter: Filter, bucket: seq<Bytes>, hash: Hash) {
    if bucket == [] then filter == []
    else |filter| >= 2 && HoldsProbes(filter[..|filter| - 1], bucket, |bucket|, filter[|filter| - 1] as nat, hash)
  }

  /** The filter of bucket `i` is made of its keys, and matches them all. */
  ghost predicate Covers(data: seq<bv8>, offsets: seq<nat>, i: nat, bucket: seq<Bytes>, hash: Hash) {
    i + 1 < |offsets| && offsets[i] <= offsets[i + 1] <= |data| && FilterOf(data[offsets[i]..offsets[i + 1]], bucket, hash) &&
    forall key :: key in bucket ==> MayMatch(data[offsets[i]..offsets[i + 1]], key, hash)
  }

  ghost predicate CoversAll(data: seq<bv8>, offsets: seq<nat>, buckets: seq<seq<Bytes>>, hash: Hash) {
    |offsets| == |buckets| + 1 && offsets[|buckets|] == |data| &&
    forall i :: 0 <= i < |buckets| ==> Covers(data, offsets, i, buckets[i], hash)
  }

  lemma AddsFilter(data: seq<bv8>, offsets: seq<nat>, buckets: seq<seq<Bytes>>, hash: Hash, filter: Filter, bucket: seq<Bytes>)
    requires CoversAll(data, offsets, buckets, hash) && FilterOf(filter, bucket, hash)
    requires forall key :: key in bucket ==> MayMatch(filter, key, hash)
    ensures CoversAll(data + filter, offsets + [|data + filter|], buckets + [bucket], hash)
  {
    var d, o := data + filter, offsets + [|data + filter|];
    forall i | 0 <= i < |buckets + [bucket]| ensures Covers(d, o, i, (buckets + [bucket])[i], hash) {
      if i < |buckets| {
        assert Covers(data, offsets, i, buckets[i], hash);
        assert d[o[i]..o[i + 1]] == data[offsets[i]..offsets[i + 1]];
      } else {
        assert d[o[i]..o[i + 1]] == filter;
      }
    }
  }

  class FilterBlockBuilder {
    const bitsPerKey: nat
    const k: nat
    const hash: Hash
    var keys: seq<Bytes>
    var result: seq<bv8>
    var offsets: seq<nat>

    /** The keys of the filters made so far. */
    ghost var buckets: seq<seq<Bytes>>

    ghost predicate Valid() reads this {
      1 <= k <= 30 && |offsets| == |buckets| && CoversAll(result, offsets + [|result|], buckets, hash)
    }

    constructor (bitsPerKey: nat, k: nat, hash: Hash)
      requires 1 <= k <= 30
      ensures Valid() && keys == [] && buckets == [] && this.hash == hash
    {
      this.bitsPerKey, this.k, this.hash := bitsPerKey, k, hash;
      keys, result, offsets, buckets := [], [], [], [];
    }

    method AddKey(key: Bytes)
      requires Valid()
      modifies this`keys
      ensures Valid() && keys == old(keys) + [key]
    {
      keys := keys + [key];
    }

    method GenerateFilter()
      requires Valid()
      modifies this
      ensures Valid() && keys == [] && buckets == old(buckets) + [old(keys)]
    {
      ghost var before := offsets;
      offsets := offsets + [|result|];
      if keys == [] {
        AddsFilter(result, offsets, buckets, hash, [], []);
        assert result + [] == result;
      } else {
        var filter := CreateFilter(keys, bitsPerKey, k, hash);
        AddsFilter(result, offsets, buckets, hash, filter, keys);
        result := result + filter;
      }
      buckets := buckets + [keys];
      keys := [];
    }

    /** A block is about to start at `blockOffset`: the keys so far belong to earlier offsets. */
    method StartBlock(blockOffset: nat)
      requires Valid() && |buckets| <= BucketIndex(blockOffset)
      modifies this
      ensures Valid() && |buckets| == BucketIndex(blockOffset) && old(buckets) <= buckets
      ensures if |old(buckets)| == |buckets| then keys == old(keys) else keys == [] && buckets[|old(buckets)|] == old(keys)
      ensures forall i :: |old(buckets)| < i < |buckets| ==> buckets[i] == []
    {
      var index := BucketIndex(blockOffset);
      while index > |offsets|
        invariant Valid() && |offsets| <= index && old(buckets) <= buckets
        invariant if |old(buckets)| == |buckets| then keys == old(keys) else keys == [] && buckets[|old(buckets)|] == old(keys)
        invariant forall i :: |old(buckets)| < i < |buckets| ==> buckets[i] == []
      {
        GenerateFilter();
      }
    }

    method Finish() returns (block: FilterBlock)
      requires Valid()
      modifies this
      ensures buckets == if old(keys) == [] then old(buckets) else old(buckets) + [old(keys)]
      ensures CoversAll(block.data, block.offsets, buckets, hash)
    {
      if keys != [] {
        GenerateFilter();
      }
      block := FilterBlock(result, offsets + [|result|]);
    }
  }

  /** FilterBlockReader::KeyMayMatch: says no only for keys that are not in the bucket. */
  method BlockMayMatch(block: FilterBlock, blockOffset: nat, key: Bytes, hash: Hash, ghost buckets: seq<seq<Bytes>>) returns (may: bool)
    requires CoversAll(block.data, block.offsets, buckets, hash)
    ensures !may ==> BucketIndex(blockOffset) < |buckets| && key !in buckets[BucketIndex(blockOffset)]
    ensures var i := BucketIndex(blockOffset);
            if i < |buckets| then
              Covers(block.data, block.offsets, i, buckets[i], hash) &&
              (may <==> MayMatch(block.data[block.offsets[i]..block.offsets[i + 1]], key, hash))
            else may
  {
    var index := BucketIndex(blockOffset);
    if index < |block.offsets| - 1 {
      assert Covers(block.data, block.offsets, index, buckets[index], hash);
      var start, limit := block.offsets[index], block.offsets[index + 1];
      may := KeyMayMatch(key, block.data[start..limit], hash);
    } else {
      may := true;
    }
  }
}
