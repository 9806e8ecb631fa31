/** The hash table of a cache shard (util/cache.cc HandleTable): chained buckets
    that grow with the number of entries.  A chain is a sequence here. */
module HandleTables {
  import opened Keys
  import opened Lookup

  /** What a chain holds: a handle, with the key and hash it is found by. */
  datatype Item = Item(key: Bytes, hash: nat, id: nat)

  type Chain = seq<Item>

  predicate Matches(item: Item, key: Bytes, hash: nat) {
    item.hash == hash && item.key == key
  }

  /** No two items of a chain answer the same lookup. */
  ghost predicate Unique(c: Chain) {
    forall i, j :: 0 <= i < j < |c| ==> !Matches(c[j], c[i].key, c[i].hash)
  }

  /** Chain `b` of `n` holds items of its bucket only. */
  ghost predicate Bucketed(c: Chain, b: nat, n: nat)
    requires n > 0
  {
    forall item :: item in c ==> item.hash % n == b
  }

  ghost predicate GoodChains(list: seq<Chain>) {
    |list| > 0 && forall b :: 0 <= b < |list| ==> Unique(list[b]) && Bucketed(list[b], b, |list|)
  }

  predicate InList(list: seq<Chain>, item: Item)
    requires |list| > 0
  {
    item in list[item.hash % |list|]
  }

  type Contents = map<(Bytes, nat), nat>

  predicate Maps(m: Contents, item: Item) {
    (item.key, item.hash) in m && m[(item.key, item.hash)] == item.id
  }

  ghost predicate Represents(list: seq<Chain>, m: Contents) {
    GoodChains(list) && forall item :: InList(list, item) <==> Maps(m, item)
  }

  method FindPointer(c: Chain, key: Bytes, hash: nat) returns (i: nat)
    ensures i <= |c| && (forall j :: 0 <= j < i ==> !Matches(c[j], key, hash)) && (i < |c| ==> Matches(c[i], key, hash))
  {
    i := 0;
    while i < |c| && (c[i].hash != hash || key != c[i].key)
      invariant i <= |c| && forall j :: 0 <= j < i ==> !Matches(c[j], key, hash)
    {
      i := i + 1;
    }
  }

  class HandleTable {
    var list: seq<Chain>
    var elems: nat
    ghost var contents: Contents

    ghost predicate Valid() reads this {
      Represents(list, contents) && elems == |contents|
    }

    constructor ()
      ensures Valid() && contents == map[]
    {
      list, elems, contents := seq(4, i => []), 0, map[];
      new;
      assert forall item: Item :: !InList(list, item);
    }

    method Lookup(key: Bytes, hash: nat) returns (r: Option<nat>)
      requires Valid()
      ensures r == if (key, hash) in contents then Some(contents[(key, hash)]) else None
    {
      var b := hash % |list|;
      var i := FindPointer(list[b], key, hash);
      LookupFinds(list, contents, key, hash, i);
      r := if i < |list[b]| then Some(list[b][i].id) else None;
    }

    method Remove(key: Bytes, hash: nat) returns (r: Option<nat>)
      requires Valid()
      modifies this
      ensures Valid() && contents == old(contents) - {(key, hash)}
      ensures r == if (key, hash) in old(contents) then Some(old(contents)[(key, hash)]) else None
    {
      var b := hash % |list|;
      var i := FindPointer(list[b], key, hash);
      LookupFinds(list, contents, key, hash, i);
      if i < |list[b]| {
        r := Some(list[b][i].id);
        RemoveKeeps(list, contents, key, hash, i);
        RemoveCounts(contents, (key, hash));
        list := list[b := list[b][..i] + list[b][i + 1..]];
        elems := elems - 1;
      } else {
        r := None;
        assert contents - {(key, hash)} == contents;
      }
      contents := contents - {(key, hash)};
    }

    method Insert(item: Item) returns (r: Option<nat>)
      requires Valid()
      modifies this
      ensures Valid() && contents == old(contents)[(item.key, item.hash) := item.id]
      ensures var k := (item.key, item.hash); r == if k in old(contents) then Some(old(contents)[k]) else None
    {
      var b := item.hash % |list|;
      var i := FindPointer(list[b], item.key, item.hash);
      LookupFinds(list, contents, item.key, item.hash, i);
      InsertKeeps(list, contents, item, i);
      InsertCounts(contents, (item.key, item.hash), item.id);
      r := None;
      if i < |list[b]| {
        r := Some(list[b][i].id);
        list := list[b := list[b][i := item]];
      } else {
        list := list[b := list[b] + [item]];
        elems := elems + 1;
      }
      contents := contents[(item.key, item.hash) := item.id];
      if r.None? && elems > |list| {
        list := Resize(list, elems, contents);
      }
    }
  }

  lemma LookupFinds(list: seq<Chain>, m: Contents, key: Bytes, hash: nat, i: nat)
    requires Represents(list, m) && i <= |list[hash % |list|]|
    requires forall j :: 0 <= j < i ==> !Matches(list[hash % |list|][j], key, hash)
    requires i < |list[hash % |list|]| ==> Matches(list[hash % |list|][i], key, hash)
    ensures if i < |list[hash % |list|]| then Maps(m, list[hash % |list|][i]) else (key, hash) !in m
  {
    var c := list[hash % |list|];
    if i < |c| {
      assert InList(list, c[i]);
    } else {
      assert (key, hash) in m ==> InList(list, Item(key, hash, m[(key, hash)]));
    }
  }

  lemma RemoveCounts(m: Contents, k: (Bytes, nat))
    requires k in m
    ensures |m - {k}| == |m| - 1
  {
    assert m == (m - {k})[k := m[k]];
  }

  lemma InsertCounts(m: Contents, k: (Bytes, nat), id: nat)
    ensures |m[k := id]| == |m| + if k in m then 0 else 1
  {
    if k in m { assert m[k := id].Keys == m.Keys; assert |m[k := id].Keys| == |m.Keys|; }
  }

  lemma RemoveKeeps(list: seq<Chain>, m: Contents, key: Bytes, hash: nat, i: nat)
    requires Represents(list, m) && i < |list[hash % |list|]| && Matches(list[hash % |list|][i], key, hash)
    ensures var b := hash % |list|; Represents(list[b := list[b][..i] + list[b][i + 1..]], m - {(key, hash)})
  {
    var b := hash % |list|;
    var c := list[b];
    var d := c[..i] + c[i + 1..];
    var t := list[b := d];
    RemoveFromChain(c, i);
    forall item ensures InList(t, item) <==> Maps(m - {(key, hash)}, item) {
      assert InList(list, item) <==> Maps(m, item);
    }
  }

  /** Without item `i`, a chain holds all its items but that one. */
  lemma RemoveFromChain(c: Chain, i: nat)
    requires Unique(c) && i < |c|
    ensures var d := c[..i] + c[i + 1..];
            Unique(d) && forall item :: item in d <==> item in c && !Matches(item, c[i].key, c[i].hash)
  {
    var d := c[..i] + c[i + 1..];
    forall item ensures item in d <==> item in c && !Matches(item, c[i].key, c[i].hash) {
      if item in c {
        var j :| 0 <= j < |c| && c[j] == item;
        if j < i { assert d[j] == item; }
        if j > i { assert d[j - 1] == item; }
      }
    }
  }

  lemma InsertKeeps(list: seq<Chain>, m: Contents, item: Item, i: nat)
    requires Represents(list, m) && i <= |list[item.hash % |list|]|
    requires forall j :: 0 <= j < i ==> !Matches(list[item.hash % |list|][j], item.key, item.hash)
    requires i < |list[item.hash % |list|]| ==> Matches(list[item.hash % |list|][i], item.key, item.hash)
    ensures var b := item.hash % |list|; var c := list[b];
            Represents(list[b := if i < |c| then c[i := item] else c + [item]], m[(item.key, item.hash) := item.id])
  {
    var b := item.hash % |list|;
    var c := list[b];
    var d := if i < |c| then c[i := item] else c + [item];
    var t := list[b := d];
    InsertInChain(c, item, i);
    forall other ensures InList(t, other) <==> Maps(m[(item.key, item.hash) := item.id], other) {
      assert InList(list, other) <==> Maps(m, other);
    }
  }

  lemma InsertInChain(c: Chain, item: Item, i: nat)
    requires Unique(c) && i <= |c| && (forall j :: 0 <= j < i ==> !Matches(c[j], item.key, item.hash))
    requires i < |c| ==> Matches(c[i], item.key, item.hash)
    ensures var d := if i < |c| then c[i := item] else c + [item];
            Unique(d) && forall other :: other in d <==> other == item || (other in c && !Matches(other, item.key, item.hash))
  {
    var d := if i < |c| then c[i := item] else c + [item];
    assert d[i] == item;
    forall other ensures other in d <==> other == item || (other in c && !Matches(other, item.key, item.hash)) {
      if other in c && !Matches(other, item.key, item.hash) {
        var j :| 0 <= j < |c| && c[j] == other;
        assert d[j] == other;
      }
    }
  }

  // ----- growing -----

  /** The chains hold exactly the items of `done`. */
  ghost predicate Moved(list: seq<Chain>, done: set<Item>) {
    GoodChains(list) && forall item :: InList(list, item) <==> item in done
  }

  ghost function ItemsOf(c: Chain): (r: set<Item>) {
    set item | item in c
  }

  ghost function Items(list: seq<Chain>, n: nat): (r: set<Item>)
    requires n <= |list|
  {
    if n == 0 then {} else Items(list, n - 1) + ItemsOf(list[n - 1])
  }

  lemma {:induction false} ItemsAre(list: seq<Chain>, n: nat, item: Item)
    requires n <= |list| && GoodChains(list)
    ensures item in Items(list, n) <==> item.hash % |list| < n && InList(list, item)
    decreases n
  {
    if n > 0 {
      ItemsAre(list, n - 1, item);
      assert Bucketed(list[n - 1], n - 1, |list|);
    }
  }

  method Push(list: seq<Chain>, item: Item, ghost done: set<Item>) returns (t: seq<Chain>)
    requires Moved(list, done) && forall other :: other in done ==> !Matches(other, item.key, item.hash)
    ensures Moved(t, done + {item}) && |t| == |list|
  {
    var b := item.hash % |list|;
    t := list[b := [item] + list[b]];
    forall other ensures InList(t, other) <==> other in done + {item} {
      assert InList(list, other) <==> other in done;
    }
    PushUnique(list[b], item);
  }

  lemma PushUnique(c: Chain, item: Item)
    requires Unique(c) && forall other :: other in c ==> !Matches(other, item.key, item.hash)
    ensures Unique([item] + c)
  {}

  method MoveChain(list: seq<Chain>, c: Chain, ghost done: set<Item>) returns (t: seq<Chain>)
    requires Moved(list, done) && Unique(c)
    requires forall other, item :: other in done && item in c ==> !Matches(other, item.key, item.hash)
    ensures Moved(t, done + ItemsOf(c)) && |t| == |list|
  {
    t := list;
    assert done + ItemsOf(c[..0]) == done;
    for i := 0 to |c|
      invariant Moved(t, done + ItemsOf(c[..i])) && |t| == |list|
    {
      ghost var before := done + ItemsOf(c[..i]);
      forall other | other in before ensures !Matches(other, c[i].key, c[i].hash) {
        if other !in done {
          var j :| 0 <= j < i && c[..i][j] == other;
          assert c[j] == other;
          assert !Matches(c[i], c[j].key, c[j].hash);
        }
      }
      t := Push(t, c[i], before);
      assert c[..i + 1] == c[..i] + [c[i]];
      assert before + {c[i]} == done + ItemsOf(c[..i + 1]);
    }
    assert c[..|c|] == c;
  }

  /** Every item moves to its chain in a table of at least `elems` chains. */
  method Resize(list: seq<Chain>, elems: nat, ghost m: Contents) returns (t: seq<Chain>)
    requires Represents(list, m)
    ensures Represents(t, m) && |t| >= elems
  {
    var length := 4;
    while length < elems
      invariant length >= 4
      decreases elems - length
    {
      length := length * 2;
    }
    t := seq(length, i => []);
    for i := 0 to |list|
      invariant Moved(t, Items(list, i)) && |t| == length
    {
      forall other, item | other in Items(list, i) && item in list[i] ensures !Matches(other, item.key, item.hash) {
        ItemsAre(list, i, other);
        assert Bucketed(list[i], i, |list|);
      }
      t := MoveChain(t, list[i], Items(list, i));
    }
    forall item ensures InList(t, item) <==> Maps(m, item) {
      ItemsAre(list, |list|, item);
      assert InList(list, item) <==> Maps(m, item);
    }
  }
}
