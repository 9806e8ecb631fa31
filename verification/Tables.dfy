/** Building a table and looking up a key in it (table/table_builder.cc,
    table/table.cc InternalGet, db/dbformat.cc InternalFilterPolicy).  A block is
    a sequence of entries here; module Blocks says how it is stored.  When a block
    is full, and how many bytes it takes, are inputs. */
module Tables {
  import opened Keys
  import opened Lookup
  import opened Filters

  datatype Cell = Cell(key: RawKey, value: Bytes)
  datatype IndexEntry = IndexEntry(key: RawKey, handle: nat)

  datatype Table = Table(index: seq<IndexEntry>, file: map<nat, seq<Cell>>, filter: Option<FilterBlock>)

  predicate KeyLess(a: RawKey, b: RawKey) {
    Less(Ranked(a), Ranked(b))
  }

  ghost predicate Rising(cells: seq<Cell>) {
    forall i, j :: 0 <= i < j < |cells| ==> KeyLess(cells[i].key, cells[j].key)
  }

  function LastKey(g: seq<Cell>): (r: RawKey)
    requires g != []
  {
    g[|g| - 1].key
  }

  /** The blocks are not empty, and each lies before the next ones. */
  ghost predicate Ordered(groups: seq<seq<Cell>>) {
    (forall b :: 0 <= b < |groups| ==> groups[b] != [] && Rising(groups[b])) &&
    forall b, c :: 0 <= b < c < |groups| && groups[b] != [] && groups[c] != [] ==> KeyLess(LastKey(groups[b]), groups[c][0].key)
  }

  /** A shortened key between the last key of a block and the first of the next:
      either the former itself, or one of an intermediate user key. */
  predicate Separates(last: RawKey, sep: RawKey, next: RawKey) {
    !KeyLess(sep, last) && KeyLess(sep, next) && (sep == last || Rank(sep.user) < Rank(next.user))
  }

  ghost predicate IndexedAt(index: seq<IndexEntry>, groups: seq<seq<Cell>>, offs: seq<nat>, b: nat) {
    b < |index| ==>
      b < |groups| && b < |offs| && index[b].handle == offs[b] && groups[b] != [] && !KeyLess(index[b].key, LastKey(groups[b])) &&
      (b + 1 < |groups| && groups[b + 1] != [] ==> Separates(LastKey(groups[b]), index[b].key, groups[b + 1][0].key))
  }

  ghost predicate Indexed(index: seq<IndexEntry>, groups: seq<seq<Cell>>, offs: seq<nat>) {
    forall b: nat {:trigger IndexedAt(index, groups, offs, b)} :: IndexedAt(index, groups, offs, b)
  }

  ghost predicate Placed(file: map<nat, seq<Cell>>, blocks: seq<seq<Cell>>, offs: seq<nat>) {
    |offs| == |blocks| && forall b :: 0 <= b < |blocks| ==> offs[b] in file && file[offs[b]] == blocks[b]
  }

  /** The user keys of each block are in the bucket of its offset. */
  ghost predicate Filtered(buckets: seq<seq<Bytes>>, blocks: seq<seq<Cell>>, offs: seq<nat>) {
    |offs| == |blocks| &&
    forall b, c :: 0 <= b < |blocks| && c in blocks[b] ==>
      BucketIndex(offs[b]) < |buckets| && c.key.user in buckets[BucketIndex(offs[b])]
  }

  function Flatten(groups: seq<seq<Cell>>): (r: seq<Cell>) {
    if groups == [] then [] else Flatten(groups[..|groups| - 1]) + groups[|groups| - 1]
  }

  lemma {:induction false} FlattenMembers(groups: seq<seq<Cell>>, c: Cell)
    ensures c in Flatten(groups) <==> exists b :: 0 <= b < |groups| && c in groups[b]
  {
    if groups != [] {
      FlattenMembers(groups[..|groups| - 1], c);
    }
  }

  // ----- looking up -----

  /** The first entry at or after `k`. */
  ghost predicate IsFirst(groups: seq<seq<Cell>>, k: RawKey, c: Cell) {
    (exists b :: 0 <= b < |groups| && c in groups[b]) && !KeyLess(c.key, k) &&
    forall b, d :: 0 <= b < |groups| && d in groups[b] && !KeyLess(d.key, k) ==> !KeyLess(d.key, c.key)
  }

  method SeekIndex(index: seq<IndexEntry>, k: RawKey) returns (i: nat)
    ensures i <= |index| && (forall j :: 0 <= j < i ==> KeyLess(index[j].key, k)) && (i < |index| ==> !KeyLess(index[i].key, k))
  {
    i := 0;
    while i < |index| && KeyLess(index[i].key, k)
      invariant i <= |index| && forall j :: 0 <= j < i ==> KeyLess(index[j].key, k)
    {
      i := i + 1;
    }
  }

  method SeekBlock(block: seq<Cell>, k: RawKey) returns (i: nat)
    ensures i <= |block| && (forall j :: 0 <= j < i ==> KeyLess(block[j].key, k)) && (i < |block| ==> !KeyLess(block[i].key, k))
  {
    i := 0;
    while i < |block| && KeyLess(block[i].key, k)
      invariant i <= |block| && forall j :: 0 <= j < i ==> KeyLess(block[j].key, k)
    {
      i := i + 1;
    }
  }

  ghost predicate Good(t: Table, groups: seq<seq<Cell>>, offs: seq<nat>, buckets: seq<seq<Bytes>>, hash: Hash) {
    Ordered(groups) && |t.index| == |groups| && Indexed(t.index, groups, offs) && Placed(t.file, groups, offs) &&
    (t.filter.Some? ==> CoversAll(t.filter.value.data, t.filter.value.offsets, buckets, hash) && Filtered(buckets, groups, offs))
  }

  /** Entries of earlier blocks are below `k`, and entries of later blocks above this one's. */
  lemma OnlyBlock(t: Table, groups: seq<seq<Cell>>, offs: seq<nat>, k: RawKey, i: nat, b: nat, c: Cell)
    requires Ordered(groups) && |t.index| == |groups| && Indexed(t.index, groups, offs) && i <= |t.index|
    requires (forall j :: 0 <= j < i ==> KeyLess(t.index[j].key, k)) && (i < |t.index| ==> !KeyLess(t.index[i].key, k))
    requires b < |groups| && c in groups[b]
    ensures b < i ==> KeyLess(c.key, k)
    ensures i < b ==> KeyLess(LastKey(groups[i]), c.key)
    ensures i < b && c.key.user == k.user ==> !KeyLess(LastKey(groups[i]), k)
  {
    assert IndexedAt(t.index, groups, offs, b);
    var j :| 0 <= j < |groups[b]| && groups[b][j] == c;
    assert !KeyLess(LastKey(groups[b]), c.key);
    if i < b {
      assert IndexedAt(t.index, groups, offs, i);
      assert !KeyLess(c.key, groups[b][0].key);
      assert !KeyLess(c.key, groups[i + 1][0].key) by {
        if i + 1 < b {
          assert KeyLess(LastKey(groups[i + 1]), groups[b][0].key);
          assert !KeyLess(LastKey(groups[i + 1]), groups[i + 1][0].key);
        }
      }
    }
  }

  /** The index picked block `i` for `k`. */
  ghost predicate Picked(index: seq<IndexEntry>, k: RawKey, i: nat) {
    i <= |index| && (forall j :: 0 <= j < i ==> KeyLess(index[j].key, k)) && (i < |index| ==> !KeyLess(index[i].key, k))
  }

  /** The first entry at or after `k`, if it is of `k`'s user key, is in the picked block. */
  lemma FirstIsInBlock(t: Table, groups: seq<seq<Cell>>, offs: seq<nat>, k: RawKey, i: nat, c: Cell)
    requires Ordered(groups) && |t.index| == |groups| && Indexed(t.index, groups, offs) && Picked(t.index, k, i)
    requires IsFirst(groups, k, c) && c.key.user == k.user
    ensures i < |groups| && c in groups[i]
  {
    var b :| 0 <= b < |groups| && c in groups[b];
    OnlyBlock(t, groups, offs, k, i, b, c);
  }

  /** The first entry of the picked block at or after `k` is the first of the table. */
  lemma BlockFirstIsFirst(t: Table, groups: seq<seq<Cell>>, offs: seq<nat>, k: RawKey, i: nat, j: nat)
    requires Ordered(groups) && |t.index| == |groups| && Indexed(t.index, groups, offs) && Picked(t.index, k, i)
    requires i < |groups| && j < |groups[i]| && !KeyLess(groups[i][j].key, k)
    requires forall m :: 0 <= m < j ==> KeyLess(groups[i][m].key, k)
    ensures IsFirst(groups, k, groups[i][j])
  {
    var c := groups[i][j];
    assert c in groups[i];
    forall b, d | 0 <= b < |groups| && d in groups[b] && !KeyLess(d.key, k) ensures !KeyLess(d.key, c.key) {
      OnlyBlock(t, groups, offs, k, i, b, d);
    }
  }

  /** Only one entry of a sorted block is first. */
  lemma FirstInBlock(groups: seq<seq<Cell>>, k: RawKey, i: nat, j: nat, c: Cell)
    requires Ordered(groups) && i < |groups| && j <= |groups[i]| && IsFirst(groups, k, c) && c in groups[i]
    requires (forall m :: 0 <= m < j ==> KeyLess(groups[i][m].key, k)) && (j < |groups[i]| ==> !KeyLess(groups[i][j].key, k))
    ensures j < |groups[i]| && groups[i][j] == c
  {
    var m :| 0 <= m < |groups[i]| && groups[i][m] == c;
  }

  /** Table::InternalGet: what it delivers is the first entry at or after `k`, and
      it delivers that entry whenever it is of `k`'s user key. */
  method InternalGet(t: Table, k: RawKey, hash: Hash, ghost groups: seq<seq<Cell>>, ghost offs: seq<nat>, ghost buckets: seq<seq<Bytes>>)
    returns (found: Option<Cell>)
    requires Good(t, groups, offs, buckets, hash)
    ensures found.Some? ==> IsFirst(groups, k, found.value)
    ensures forall c :: IsFirst(groups, k, c) && c.key.user == k.user ==> found == Some(c)
  {
    var i := SeekIndex(t.index, k);
    forall c | IsFirst(groups, k, c) && c.key.user == k.user ensures i < |groups| && c in groups[i] {
      FirstIsInBlock(t, groups, offs, k, i, c);
    }
    if i == |t.index| {
      return None;
    }
    assert IndexedAt(t.index, groups, offs, i);
    var handle := t.index[i].handle;
    var may := true;
    if t.filter.Some? {
      may := BlockMayMatch(t.filter.value, handle, k.user, hash, buckets);
    }
    if !may {
      return None;
    }
    found := GetFromBlock(t.file[handle], k);
    ghost var j := if found.Some? then Position(groups[i], k, found.value) else |groups[i]|;
    if found.Some? { BlockFirstIsFirst(t, groups, offs, k, i, j); }
    forall c | IsFirst(groups, k, c) && c.key.user == k.user ensures found == Some(c) {
      FirstInBlock(groups, k, i, j, c);
    }
  }

  /** Position `j` of a block is where a seek to `k` stops. */
  ghost predicate StopsAt(block: seq<Cell>, k: RawKey, j: nat) {
    j <= |block| && (forall m :: 0 <= m < j ==> KeyLess(block[m].key, k)) && (j < |block| ==> !KeyLess(block[j].key, k))
  }

  ghost function Position(block: seq<Cell>, k: RawKey, c: Cell): (r: nat)
    requires exists j :: 0 <= j < |block| && StopsAt(block, k, j) && block[j] == c
  {
    var j :| 0 <= j < |block| && StopsAt(block, k, j) && block[j] == c;
    j
  }

  method GetFromBlock(block: seq<Cell>, k: RawKey) returns (found: Option<Cell>)
    ensures if found.Some? then exists j :: 0 <= j < |block| && StopsAt(block, k, j) && block[j] == found.value
            else StopsAt(block, k, |block|)
  {
    var j := SeekBlock(block, k);
    assert StopsAt(block, k, j);
    found := if j < |block| then Some(block[j]) else None;
  }

  // ----- building -----

  /** The written blocks, and the one being filled. */
  ghost function Groups(blocks: seq<seq<Cell>>, data: seq<Cell>): (r: seq<seq<Cell>>) {
    if data == [] then blocks else blocks + [data]
  }

  ghost function BucketOf(buckets: seq<seq<Bytes>>, keys: seq<Bytes>, i: nat): (r: seq<Bytes>) {
    if i < |buckets| then buckets[i] else keys
  }

  /** The user keys of a block at offset `off` are in its bucket, or in the one being gathered. */
  ghost predicate GatheredAt(buckets: seq<seq<Bytes>>, keys: seq<Bytes>, block: seq<Cell>, off: nat) {
    BucketIndex(off) <= |buckets| && forall c :: c in block ==> c.key.user in BucketOf(buckets, keys, BucketIndex(off))
  }

  ghost predicate Gathered(buckets: seq<seq<Bytes>>, keys: seq<Bytes>, blocks: seq<seq<Cell>>, offs: seq<nat>) {
    |offs| == |blocks| && forall b :: 0 <= b < |blocks| ==> GatheredAt(buckets, keys, blocks[b], offs[b])
  }

  lemma OrderedSnoc(groups: seq<seq<Cell>>, c: Cell)
    requires Ordered(groups) && (groups != [] ==> KeyLess(LastKey(groups[|groups| - 1]), c.key))
    ensures Ordered(groups + [[c]])
  {
    forall b | 0 <= b < |groups| ensures KeyLess(LastKey(groups[b]), c.key) {
      var n := |groups| - 1;
      if b < n {
        assert KeyLess(LastKey(groups[b]), groups[n][0].key);
        assert !KeyLess(LastKey(groups[n]), groups[n][0].key);
      }
    }
  }

  lemma OrderedExtend(blocks: seq<seq<Cell>>, data: seq<Cell>, c: Cell)
    requires data != [] && Ordered(blocks + [data]) && KeyLess(LastKey(data), c.key)
    ensures Ordered(blocks + [data + [c]])
  {
    var g: seq<seq<Cell>>, g2: seq<seq<Cell>> := blocks + [data], blocks + [data + [c]];
    forall b: nat | 0 <= b < |g2| ensures g2[b] != [] && Rising(g2[b]) && (b < |blocks| ==> g2[b] == g[b]) {
      assert g[b] != [] && Rising(g[b]);
      if b == |blocks| { RisingSnoc(data, c); }
    }
    forall b: nat, d: nat | b < d < |g2| ensures KeyLess(LastKey(g2[b]), g2[d][0].key) {
      assert KeyLess(LastKey(g[b]), g[d][0].key);
      assert g2[d][0] == g[d][0];
    }
  }

  lemma RisingSnoc(data: seq<Cell>, c: Cell)
    requires data != [] && Rising(data) && KeyLess(LastKey(data), c.key)
    ensures Rising(data + [c])
  {}

  /** The index entries do not notice more entries in the block they precede. */
  lemma IndexStands(index: seq<IndexEntry>, g: seq<seq<Cell>>, g2: seq<seq<Cell>>, offs: seq<nat>)
    requires Indexed(index, g, offs) && |index| <= |g| && |index| <= |g2| && forall b :: 0 <= b < |index| ==> g2[b] == g[b]
    requires index != [] && |index| < |g2| ==> |index| < |g| && g[|index|] != [] && g2[|index|] != [] && g2[|index|][0] == g[|index|][0]
    ensures Indexed(index, g2, offs)
  {
    forall b: nat ensures IndexedAt(index, g2, offs, b) {
      assert IndexedAt(index, g, offs, b);
    }
  }

  lemma IndexOffsets(index: seq<IndexEntry>, g: seq<seq<Cell>>, offs: seq<nat>, offset: nat)
    requires Indexed(index, g, offs)
    ensures Indexed(index, g, offs + [offset])
  {
    forall b: nat ensures IndexedAt(index, g, offs + [offset], b) {
      assert IndexedAt(index, g, offs, b);
    }
  }

  lemma IndexSnoc(index: seq<IndexEntry>, g: seq<seq<Cell>>, offs: seq<nat>, e: IndexEntry)
    requires Indexed(index, g, offs) && |index| < |g| && |index| < |offs| && e.handle == offs[|index|] && g[|index|] != []
    requires !KeyLess(e.key, LastKey(g[|index|]))
    requires |index| + 1 < |g| && g[|index| + 1] != [] ==> Separates(LastKey(g[|index|]), e.key, g[|index| + 1][0].key)
    ensures Indexed(index + [e], g, offs)
  {
    forall b: nat ensures IndexedAt(index + [e], g, offs, b) {
      assert IndexedAt(index, g, offs, b);
    }
  }

  /** The index entry of the last block, written when the next key is known. */
  lemma IndexNext(index: seq<IndexEntry>, blocks: seq<seq<Cell>>, offs: seq<nat>, e: IndexEntry, c: Cell)
    requires Indexed(index, blocks, offs) && |index| == |blocks| - 1 && |offs| == |blocks| && e.handle == offs[|index|]
    requires blocks[|index|] != [] && Separates(LastKey(blocks[|index|]), e.key, c.key)
    ensures Indexed(index + [e], blocks + [[c]], offs)
  {
    IndexStands(index, blocks, blocks + [[c]], offs);
    IndexSnoc(index, blocks + [[c]], offs, e);
  }

  /** The index entries while the block after them fills. */
  lemma IndexGrows(index: seq<IndexEntry>, blocks: seq<seq<Cell>>, data: seq<Cell>, offs: seq<nat>, c: Cell)
    requires Indexed(index, Groups(blocks, data), offs) && |index| == |blocks| && (blocks != [] ==> data != [])
    ensures Indexed(index, blocks + [data + [c]], offs)
  {
    IndexStands(index, Groups(blocks, data), blocks + [data + [c]], offs);
  }

  method Separator(last: RawKey, next: RawKey) returns (sep: RawKey)
    requires KeyLess(last, next)
    ensures Separates(last, sep, next)
  {
    sep := FindShortestInternalSeparator(last, next);
    RankIsEmbedding(sep.user, next.user);
  }

  /** What the filter has gathered stays gathered when a key is added or a new block starts. */
  lemma StillGathered(before: seq<seq<Bytes>>, keys: seq<Bytes>, after: seq<seq<Bytes>>, more: seq<Bytes>, blocks: seq<seq<Cell>>, offs: seq<nat>)
    requires Gathered(before, keys, blocks, offs) && before <= after
    requires if |before| == |after| then forall k :: k in keys ==> k in more else after[|before|] == keys
    ensures Gathered(after, more, blocks, offs)
  {
    forall b | 0 <= b < |blocks| ensures GatheredAt(after, more, blocks[b], offs[b]) {
      assert GatheredAt(before, keys, blocks[b], offs[b]);
    }
  }

  lemma GatheredSnoc(buckets: seq<seq<Bytes>>, keys: seq<Bytes>, blocks: seq<seq<Cell>>, offs: seq<nat>, data: seq<Cell>, offset: nat)
    requires Gathered(buckets, keys, blocks, offs) && |buckets| == BucketIndex(offset) && forall c :: c in data ==> c.key.user in keys
    ensures Gathered(buckets, keys, blocks + [data], offs + [offset])
  {
    assert GatheredAt(buckets, keys, data, offset);
  }

  class TableBuilder {
    const filter: FilterBlockBuilder?  // null without a filter policy
    const hash: Hash
    var file: map<nat, seq<Cell>>
    var offset: nat
    var dataBlock: seq<Cell>
    var indexBlock: seq<IndexEntry>
    var lastKey: RawKey
    var numEntries: nat
    var pendingIndexEntry: bool
    var pendingHandle: nat

    ghost var blocks: seq<seq<Cell>>
    ghost var offs: seq<nat>

    ghost function All(): (r: seq<seq<Cell>>) reads this {
      Groups(blocks, dataBlock)
    }

    ghost predicate Filtering() reads this, filter {
      filter != null ==>
      filter.hash == hash && filter.Valid() && |filter.buckets| == BucketIndex(offset) && Gathered(filter.buckets, filter.keys, blocks, offs) &&
      forall c :: c in dataBlock ==> c.key.user in filter.keys
    }

    ghost predicate Stored() reads this {
      Placed(file, blocks, offs) && forall o :: o in file ==> o < offset
    }

    ghost predicate Writing() reads this {
      Stored() && (pendingIndexEntry ==> dataBlock == [] && blocks != [] && pendingHandle == offs[|offs| - 1]) &&
      (blocks != [] && !pendingIndexEntry ==> dataBlock != [])
    }

    ghost predicate Indexing() reads this {
      Ordered(All()) && Indexed(indexBlock, All(), offs) && |indexBlock| == |blocks| - (if pendingIndexEntry then 1 else 0) &&
      (numEntries == 0 <==> All() == []) && (numEntries > 0 ==> All()[|All()| - 1] != [] && lastKey == LastKey(All()[|All()| - 1]))
    }

    ghost predicate Valid() reads this, filter {
      Writing() && Indexing() && Filtering()
    }

    constructor (filtered: bool, bitsPerKey: nat, k: nat, hash: Hash)
      requires filtered ==> 1 <= k <= 30
      ensures Valid() && All() == [] && this.hash == hash && (filter != null <==> filtered) && (filter != null ==> fresh(filter))
    {
      var f: FilterBlockBuilder? := null;
      if filtered {
        f := new FilterBlockBuilder(bitsPerKey, k, hash);
        f.StartBlock(0);
      }
      this.filter, this.hash := f, hash;
      file, offset, dataBlock, indexBlock := map[], 0, [], [];
      lastKey, numEntries, pendingIndexEntry, pendingHandle := RawKey([], 0, Deletion), 0, false, 0;
      blocks, offs := [], [];
      new;
      forall b: nat ensures IndexedAt([], [], [], b) {}
    }

    /** The index entry for the last block waits for the first key of the next. */
    method EmitIndexEntry(key: RawKey, ghost c: Cell)
      requires Writing() && Indexing() && (numEntries > 0 ==> KeyLess(lastKey, key)) && c.key == key
      modifies this`indexBlock, this`lastKey, this`pendingIndexEntry
      ensures !pendingIndexEntry && |indexBlock| == |blocks|
      ensures Indexed(indexBlock, blocks + [dataBlock + [c]], offs)
    {
      if pendingIndexEntry {
        var sep := Separator(lastKey, key);
        IndexNext(indexBlock, blocks, offs, IndexEntry(sep, pendingHandle), c);
        assert dataBlock + [c] == [c];
        lastKey := sep;
        indexBlock := indexBlock + [IndexEntry(sep, pendingHandle)];
        pendingIndexEntry := false;
      } else {
        IndexGrows(indexBlock, blocks, dataBlock, offs, c);
      }
    }

    /** Adds an entry; `full` says that the block has reached its size, and `size`
        how many bytes it takes. */
    method Add(key: RawKey, value: Bytes, full: bool, size: nat)
      requires Valid() && (numEntries > 0 ==> KeyLess(lastKey, key))
      modifies this, filter
      ensures Valid() && Flatten(All()) == Flatten(old(All())) + [Cell(key, value)]
      ensures numEntries == old(numEntries) + 1 && lastKey == key
    {
      AddEntry(key, value);
      if full {
        Flush(size);
      }
    }

    method AddEntry(key: RawKey, value: Bytes)
      requires Valid() && (numEntries > 0 ==> KeyLess(lastKey, key))
      modifies this, filter
      ensures Valid() && Flatten(All()) == Flatten(old(All())) + [Cell(key, value)]
      ensures numEntries == old(numEntries) + 1 && lastKey == key
    {
      ghost var all := blocks + [dataBlock + [Cell(key, value)]];
      AddOrdered(blocks, dataBlock, Cell(key, value));
      EmitIndexEntry(key, Cell(key, value));
      AddCell(key, value);
      assert All() == all;
    }

    method AddCell(key: RawKey, value: Bytes)
      requires Stored() && Filtering() && !pendingIndexEntry && |indexBlock| == |blocks|
      requires Ordered(blocks + [dataBlock + [Cell(key, value)]])
      requires Indexed(indexBlock, blocks + [dataBlock + [Cell(key, value)]], offs)
      modifies this`lastKey, this`numEntries, this`dataBlock, filter
      ensures Valid() && All() == blocks + [old(dataBlock) + [Cell(key, value)]]
      ensures numEntries == old(numEntries) + 1 && lastKey == key
    {
      if filter != null {
        filter.AddKey(key.user);
        StillGathered(filter.buckets, old(filter.keys), filter.buckets, filter.keys, blocks, offs);
      }
      lastKey := key;
      numEntries := numEntries + 1;
      dataBlock := dataBlock + [Cell(key, value)];
    }

    method Flush(size: nat)
      requires Valid()
      modifies this, filter
      ensures Valid() && All() == old(All()) && dataBlock == [] && numEntries == old(numEntries) && lastKey == old(lastKey)
    {
      if dataBlock == [] {
        return;
      }
      if filter != null {
        GatheredSnoc(filter.buckets, filter.keys, blocks, offs, dataBlock, offset);
        BucketIndexRises(offset, offset + size + 5);
      }
      WriteBlock(size);
      if filter != null {
        ghost var buckets, keys := filter.buckets, filter.keys;
        filter.StartBlock(offset);
        StillGathered(buckets, keys, filter.buckets, filter.keys, blocks, offs);
      }
    }

    /** The block goes to the file, with a trailer of five bytes. */
    method WriteBlock(size: nat)
      requires Writing() && Indexing() && dataBlock != [] && !pendingIndexEntry
      modifies this
      ensures Writing() && Indexing() && All() == old(All()) && dataBlock == [] && pendingIndexEntry
      ensures offset == old(offset) + size + 5 && numEntries == old(numEntries) && lastKey == old(lastKey)
      ensures blocks == old(blocks) + [old(dataBlock)] && offs == old(offs) + [old(offset)]
    {
      PlacedSnoc(file, blocks, offs, dataBlock, offset);
      IndexOffsets(indexBlock, All(), offs, offset);
      file := file[offset := dataBlock];
      pendingHandle := offset;
      blocks, offs := blocks + [dataBlock], offs + [offset];
      offset := offset + size + 5;
      dataBlock := [];
      pendingIndexEntry := true;
    }

    method EmitLastIndexEntry()
      requires Writing() && Indexing() && dataBlock == []
      modifies this`indexBlock, this`lastKey, this`pendingIndexEntry
      ensures |indexBlock| == |blocks| && Indexed(indexBlock, blocks, offs)
    {
      if pendingIndexEntry {
        lastKey := FindShortInternalSuccessor(lastKey);
        IndexSnoc(indexBlock, blocks, offs, IndexEntry(lastKey, pendingHandle));
        indexBlock := indexBlock + [IndexEntry(lastKey, pendingHandle)];
        pendingIndexEntry := false;
      }
    }

    /** The finished table holds exactly what was added, and answers lookups for it,
        by a filter if there is a policy for one. */
    method Finish(size: nat) returns (t: Table, ghost groups: seq<seq<Cell>>, ghost at: seq<nat>, ghost buckets: seq<seq<Bytes>>)
      requires Valid()
      modifies this, filter
      ensures Good(t, groups, at, buckets, hash) && groups == old(All()) && (t.filter.Some? <==> filter != null)
    {
      Flush(size);
      groups, at, buckets := blocks, offs, [];
      EmitLastIndexEntry();
      t := Table(indexBlock, file, None);
      if filter != null {
        var block := FinishFilter();
        buckets := filter.buckets;
        t := Table(indexBlock, file, Some(block));
      }
    }

    method FinishFilter() returns (block: FilterBlock)
      requires filter != null && filter.Valid() && Gathered(filter.buckets, filter.keys, blocks, offs)
      modifies filter
      ensures CoversAll(block.data, block.offsets, filter.buckets, filter.hash) && Filtered(filter.buckets, blocks, offs)
    {
      ghost var b0, k0 := filter.buckets, filter.keys;
      block := filter.Finish();
      AllGathered(b0, k0, filter.buckets, blocks, offs);
    }
  }

  lemma PlacedSnoc(file: map<nat, seq<Cell>>, blocks: seq<seq<Cell>>, offs: seq<nat>, data: seq<Cell>, offset: nat)
    requires Placed(file, blocks, offs) && forall o :: o in file ==> o < offset
    ensures Placed(file[offset := data], blocks + [data], offs + [offset])
  {}

  lemma AddOrdered(blocks: seq<seq<Cell>>, data: seq<Cell>, c: Cell)
    requires Ordered(Groups(blocks, data))
    requires Groups(blocks, data) != [] ==> KeyLess(LastKey(Groups(blocks, data)[|Groups(blocks, data)| - 1]), c.key)
    ensures Ordered(blocks + [data + [c]])
    ensures Flatten(blocks + [data + [c]]) == Flatten(Groups(blocks, data)) + [c]
  {
    if data == [] {
      OrderedSnoc(blocks, c);
      assert data + [c] == [c];
    } else {
      OrderedExtend(blocks, data, c);
    }
    assert (blocks + [data + [c]])[..|blocks|] == blocks;
    assert data != [] ==> (blocks + [data])[..|blocks|] == blocks;
  }

  /** Once the last bucket is closed, every key is in the bucket of its block. */
  lemma AllGathered(before: seq<seq<Bytes>>, keys: seq<Bytes>, after: seq<seq<Bytes>>, blocks: seq<seq<Cell>>, offs: seq<nat>)
    requires Gathered(before, keys, blocks, offs)
    requires after == if keys == [] then before else before + [keys]
    ensures Filtered(after, blocks, offs)
  {
    forall b, c | 0 <= b < |blocks| && c in blocks[b]
      ensures BucketIndex(offs[b]) < |after| && c.key.user in after[BucketIndex(offs[b])]
    {
      assert GatheredAt(before, keys, blocks[b], offs[b]);
    }
  }
}
