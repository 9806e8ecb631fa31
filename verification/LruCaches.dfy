/** One shard of the LRU cache (util/cache.cc LRUCache).  Handles are named by
    numbers; the circular lists are sequences, oldest first.

    The state changes are functions on `Shard`, each shown to keep `Good`: the
    lists partition the cached handles by reference count, usage is the sum of
    their charges, and a handle is freed once, when its last reference goes.
    `Tabled` ties the lists to the hash table's map.  The class composes them. */
module LruCaches {
  import opened Keys
  import opened Lookup
  import opened HandleTables

  datatype Handle = Handle(key: Bytes, hash: nat, value: nat, charge: nat, inCache: bool, refs: nat)

  type Handles = map<nat, Handle>

  /** The shard: allocated handles, the two lists, the charge in use, the
      references that clients hold, and the handles whose deleter has run. */
  datatype Shard = Shard(handles: Handles, lru: seq<nat>, inUse: seq<nat>, usage: nat, held: multiset<nat>, freed: seq<nat>, next: nat)

  // ----- lists -----

  /** LRU_Remove. */
  function Without(ids: seq<nat>, id: nat): (r: seq<nat>) {
    if ids == [] then []
    else if ids[|ids| - 1] == id then Without(ids[..|ids| - 1], id)
    else Without(ids[..|ids| - 1], id) + [ids[|ids| - 1]]
  }

  ghost predicate Distinct(ids: seq<nat>) {
    forall i, j :: 0 <= i < j < |ids| ==> ids[i] != ids[j]
  }

  lemma {:induction false} WithoutMembers(ids: seq<nat>, id: nat, x: nat)
    ensures x in Without(ids, id) <==> x in ids && x != id
    ensures id !in ids ==> Without(ids, id) == ids
  {
    if ids != [] {
      WithoutMembers(ids[..|ids| - 1], id, x);
    }
  }

  lemma {:induction false} WithoutDistinct(ids: seq<nat>, id: nat)
    requires Distinct(ids)
    ensures Distinct(Without(ids, id))
  {
    if ids != [] {
      var front, last := ids[..|ids| - 1], ids[|ids| - 1];
      WithoutDistinct(front, id);
      WithoutMembers(front, id, last);
      assert last !in front;
    }
  }

  function ChargeOf(hs: Handles, id: nat): (r: nat) {
    if id in hs then hs[id].charge else 0
  }

  function Charges(hs: Handles, ids: seq<nat>): (r: nat) {
    if ids == [] then 0 else Charges(hs, ids[..|ids| - 1]) + ChargeOf(hs, ids[|ids| - 1])
  }

  lemma {:induction false} SameCharges(hs: Handles, gs: Handles, ids: seq<nat>)
    requires forall id :: id in ids ==> ChargeOf(hs, id) == ChargeOf(gs, id)
    ensures Charges(hs, ids) == Charges(gs, ids)
  {
    if ids != [] { SameCharges(hs, gs, ids[..|ids| - 1]); }
  }

  lemma ChargesSnoc(hs: Handles, ids: seq<nat>, id: nat)
    ensures Charges(hs, ids + [id]) == Charges(hs, ids) + ChargeOf(hs, id)
  {
    assert (ids + [id])[..|ids|] == ids;
  }

  lemma {:induction false} ChargesWithout(hs: Handles, ids: seq<nat>, id: nat)
    requires Distinct(ids)
    ensures Charges(hs, ids) == Charges(hs, Without(ids, id)) + if id in ids then ChargeOf(hs, id) else 0
  {
    if ids != [] {
      var front, last := ids[..|ids| - 1], ids[|ids| - 1];
      ChargesWithout(hs, front, id);
      assert last !in front && (id in ids <==> id in front || id == last);
      ChargesSnoc(hs, Without(front, id), last);
    }
  }

  // ----- what every operation keeps -----

  /** Entries in the cache are on one list: `lru` when only the cache refers to
      them, `inUse` when clients do too. */
  ghost predicate Listed(s: Shard) {
    Distinct(s.lru) && Distinct(s.inUse) &&
    (forall id :: id in s.lru ==> id in s.handles && s.handles[id].inCache && s.handles[id].refs == 1) &&
    (forall id :: id in s.inUse ==> id in s.handles && s.handles[id].inCache && s.handles[id].refs >= 2) &&
    forall id :: id in s.handles && s.handles[id].inCache ==> if s.handles[id].refs == 1 then id in s.lru else id in s.inUse
  }

  /** References are counted: the clients', and the cache's own. */
  ghost predicate Counted(s: Shard) {
    (forall id :: id in s.handles ==> s.handles[id].refs == s.held[id] + (if s.handles[id].inCache then 1 else 0) && s.handles[id].refs >= 1) &&
    forall id :: id in s.held ==> id in s.handles
  }

  ghost predicate Charged(s: Shard) {
    s.usage == Charges(s.handles, s.lru) + Charges(s.handles, s.inUse)
  }

  /** Every handle ever made is allocated or has been deleted, once. */
  ghost predicate FreedOnce(s: Shard) {
    Distinct(s.freed) && (forall id :: id in s.handles ==> id < s.next && id !in s.freed) &&
    (forall id :: id in s.freed ==> id < s.next) && forall id :: 1 <= id < s.next ==> id in s.handles || id in s.freed
  }

  ghost predicate Good(s: Shard) {
    Listed(s) && Counted(s) && Charged(s) && FreedOnce(s)
  }

  ghost predicate IsFound(s: Shard, m: Contents, missing: set<nat>, id: nat) {
    id in s.handles && s.handles[id].inCache && id !in missing ==>
      (s.handles[id].key, s.handles[id].hash) in m && m[(s.handles[id].key, s.handles[id].hash)] == id
  }

  ghost predicate FindsEntry(s: Shard, m: Contents, missing: set<nat>, k: (Bytes, nat)) {
    k in m ==> m[k] in s.handles && s.handles[m[k]].inCache && m[k] !in missing && k == (s.handles[m[k]].key, s.handles[m[k]].hash)
  }

  /** The table finds exactly the entries in the cache, but for `missing`. */
  ghost predicate Tabled(s: Shard, m: Contents, missing: set<nat>) {
    (forall id: nat {:trigger IsFound(s, m, missing, id)} :: IsFound(s, m, missing, id)) &&
    forall k: (Bytes, nat) {:trigger FindsEntry(s, m, missing, k)} :: FindsEntry(s, m, missing, k)
  }

  // ----- references -----

  /** A client takes a reference. */
  function Ref(s: Shard, id: nat): (r: Shard)
    requires id in s.handles
  {
    var h := s.handles[id];
    var t := if h.refs == 1 && h.inCache then s.(lru := Without(s.lru, id), inUse := s.inUse + [id]) else s;
    t.(handles := s.handles[id := h.(refs := h.refs + 1)], held := s.held + multiset{id})
  }

  /** A reference is dropped; the last one frees the handle. */
  function Unref(s: Shard, id: nat): (r: Shard)
    requires id in s.handles && s.handles[id].refs > 0
  {
    var h := s.handles[id];
    if h.refs == 1 then
      s.(handles := map x | x in s.handles && x != id :: s.handles[x], freed := s.freed + [id])
    else
      var t := if h.inCache && h.refs == 2 then s.(inUse := Without(s.inUse, id), lru := s.lru + [id]) else s;
      t.(handles := s.handles[id := h.(refs := h.refs - 1)])
  }

  /** A client gives a reference back. */
  function Released(s: Shard, id: nat): (r: Shard)
    requires id in s.handles && s.handles[id].refs > 0
  {
    Unref(s.(held := s.held - multiset{id}), id)
  }

  /** An entry leaves the cache. */
  function Detached(s: Shard, id: nat): (r: Shard)
    requires id in s.handles
  {
    var h := s.handles[id];
    s.(lru := Without(s.lru, id), inUse := Without(s.inUse, id), handles := s.handles[id := h.(inCache := false)],
       usage := if s.usage >= h.charge then s.usage - h.charge else 0)
  }

  function Erased(s: Shard, id: nat): (r: Shard)
    requires id in s.handles && s.handles[id].refs > 0
  {
    Unref(Detached(s, id), id)
  }

  lemma WithoutAll(ids: seq<nat>, id: nat)
    requires Distinct(ids)
    ensures Distinct(Without(ids, id)) && (forall x :: x in Without(ids, id) <==> x in ids && x != id)
    ensures id !in ids ==> Without(ids, id) == ids
  {
    WithoutDistinct(ids, id);
    forall x ensures x in Without(ids, id) <==> x in ids && x != id { WithoutMembers(ids, id, x); }
    WithoutMembers(ids, id, id);
  }

  lemma RefListed(s: Shard, id: nat)
    requires Listed(s) && id in s.handles
    ensures Listed(Ref(s, id))
  {
    WithoutAll(s.lru, id);
  }

  lemma MoveCharges(hs: Handles, from: seq<nat>, to: seq<nat>, id: nat)
    requires Distinct(from) && id in from
    ensures Charges(hs, Without(from, id)) + Charges(hs, to + [id]) == Charges(hs, from) + Charges(hs, to)
  {
    ChargesWithout(hs, from, id);
    assert (to + [id])[..|to|] == to;
  }

  lemma RefIsCounted(s: Shard, id: nat)
    requires Counted(s) && id in s.handles
    ensures Counted(Ref(s, id))
  {}

  lemma RefIsFreedOnce(s: Shard, id: nat)
    requires FreedOnce(s) && id in s.handles
    ensures FreedOnce(Ref(s, id))
  {}

  lemma RefIsCharged(s: Shard, id: nat)
    requires Listed(s) && Charged(s) && id in s.handles
    ensures Listed(Ref(s, id)) && Charged(Ref(s, id))
  {
    RefListed(s, id);
    var t := Ref(s, id);
    if s.handles[id].refs == 1 && s.handles[id].inCache {
      MoveCharges(s.handles, s.lru, s.inUse, id);
    }
    SameCharges(s.handles, t.handles, t.lru);
    SameCharges(s.handles, t.handles, t.inUse);
  }

  lemma RefKeepsGood(s: Shard, id: nat)
    requires Good(s) && id in s.handles
    ensures Good(Ref(s, id))
  {
    RefIsCharged(s, id);
    RefIsCounted(s, id);
    RefIsFreedOnce(s, id);
  }

  lemma ReleasedIsListed(s: Shard, id: nat)
    requires Listed(s) && Counted(s) && id in s.held
    ensures Listed(Released(s, id))
  {
    var h := s.handles[id];
    if h.refs == 1 {
      LastReleased(s, id);
    } else if h.inCache && h.refs == 2 {
      IdleReleased(s, id);
    }
  }

  lemma LastReleased(s: Shard, id: nat)
    requires Listed(s) && Counted(s) && id in s.held && s.handles[id].refs == 1
    ensures Listed(Released(s, id))
  {}

  lemma IdleReleased(s: Shard, id: nat)
    requires Listed(s) && Counted(s) && id in s.held && s.handles[id].inCache && s.handles[id].refs == 2
    ensures Listed(Released(s, id))
  {
    WithoutAll(s.inUse, id);
  }

  lemma ReleasedIsCounted(s: Shard, id: nat)
    requires Counted(s) && id in s.held
    ensures Counted(Released(s, id))
  {}

  lemma ReleasedIsFreedOnce(s: Shard, id: nat)
    requires FreedOnce(s) && id in s.handles && s.handles[id].refs > 0
    ensures FreedOnce(Released(s, id))
  {}

  lemma ReleasedKeepsGood(s: Shard, id: nat)
    requires Good(s) && id in s.held
    ensures Good(Released(s, id))
  {
    ReleasedIsListed(s, id);
    ReleasedIsCounted(s, id);
    ReleasedIsFreedOnce(s, id);
    ReleasedIsCharged(s, id);
  }

  lemma ReleasedIsCharged(s: Shard, id: nat)
    requires Listed(s) && Counted(s) && Charged(s) && id in s.held
    ensures Charged(Released(s, id))
  {
    var t := Released(s, id);
    if s.handles[id].refs == 2 && s.handles[id].inCache {
      MoveCharges(s.handles, s.inUse, s.lru, id);
    }
    SameCharges(s.handles, t.handles, t.lru);
    SameCharges(s.handles, t.handles, t.inUse);
  }

  lemma ErasedIsListed(s: Shard, id: nat)
    requires Listed(s) && Counted(s) && id in s.handles && s.handles[id].inCache
    ensures Listed(Erased(s, id))
    ensures Erased(s, id).lru == Without(s.lru, id) && Erased(s, id).inUse == Without(s.inUse, id)
  {
    WithoutAll(s.inUse, id);
    WithoutAll(s.lru, id);
  }

  lemma ErasedIsCounted(s: Shard, id: nat)
    requires Counted(s) && id in s.handles && s.handles[id].inCache
    ensures Counted(Erased(s, id))
  {}

  lemma ErasedIsFreedOnce(s: Shard, id: nat)
    requires FreedOnce(s) && id in s.handles && s.handles[id].refs > 0
    ensures FreedOnce(Erased(s, id))
  {}

  lemma ErasedKeepsGood(s: Shard, id: nat)
    requires Good(s) && id in s.handles && s.handles[id].inCache
    ensures Good(Erased(s, id))
    ensures Erased(s, id).lru == Without(s.lru, id) && Erased(s, id).usage + s.handles[id].charge == s.usage
  {
    ErasedIsListed(s, id);
    ErasedIsCounted(s, id);
    ErasedIsFreedOnce(s, id);
    var t := Erased(s, id);
    WithoutAll(s.inUse, id);
    WithoutAll(s.lru, id);
    ChargesWithout(s.handles, s.lru, id);
    ChargesWithout(s.handles, s.inUse, id);
    SameCharges(s.handles, t.handles, t.lru);
    SameCharges(s.handles, t.handles, t.inUse);
  }

  lemma ErasedEffect(s: Shard, id: nat)
    requires Good(s) && id in s.handles && s.handles[id].inCache
    ensures var t := Erased(s, id);
            t.lru == Without(s.lru, id) && t.held == s.held && s.freed <= t.freed &&
            (forall x :: x in s.inUse && x != id ==> x in t.inUse) &&
            forall x :: x in s.handles && x != id ==> x in t.handles && t.handles[x] == s.handles[x]
  {
    ErasedIsListed(s, id);
    WithoutAll(s.inUse, id);
  }

  /** A new cached entry, and the one it replaces gone. */
  function Replaced(s: Shard, key: Bytes, hash: nat, value: nat, charge: nat, replaced: Option<nat>): (r: Shard)
    requires s.next !in s.handles
    requires replaced.Some? ==> replaced.value in s.handles && s.handles[replaced.value].refs > 0
  {
    var t := Added(s, key, hash, value, charge, true);
    if replaced.Some? then Erased(t, replaced.value) else t
  }

  lemma ReplacedEffect(s: Shard, key: Bytes, hash: nat, value: nat, charge: nat, replaced: Option<nat>)
    requires Good(s) && s.next !in s.handles && s.next !in s.lru && Good(Added(s, key, hash, value, charge, true))
    requires replaced.Some? ==> replaced.value in s.handles && s.handles[replaced.value].inCache
    ensures replaced.Some? ==> s.handles[replaced.value].refs > 0
    ensures var u := Replaced(s, key, hash, value, charge, replaced);
            u.held == s.held + multiset{s.next} && s.freed <= u.freed && u.lru == Idle(s.lru, replaced) &&
            s.next in u.handles && u.handles[s.next] == Handle(key, hash, value, charge, true, 2) && StillUsed(s, u, replaced)
  {
    if replaced.Some? { ErasedEffect(Added(s, key, hash, value, charge, true), replaced.value); }
  }

  /** Erasing the oldest idle entry frees it, and touches nothing else. */
  lemma OldestErased(s: Shard)
    requires Good(s) && s.lru != []
    ensures s.lru[0] in s.handles && s.handles[s.lru[0]].inCache && s.handles[s.lru[0]].refs == 1
    ensures var t := Erased(s, s.lru[0]);
            t.lru == s.lru[1..] && t.inUse == s.inUse && t.usage <= s.usage && t.held == s.held && t.next == s.next &&
            t.freed == s.freed + [s.lru[0]] && forall x :: x in s.handles && x != s.lru[0] ==> x in t.handles && t.handles[x] == s.handles[x]
  {
    var id := s.lru[0];
    assert id in s.lru;
    ErasedEffect(s, id);
    ErasedKeepsGood(s, id);
    FirstWithout(s.lru);
    WithoutAll(s.inUse, id);
  }

  /** A new handle, with the client's reference, and the cache's if it is kept. */
  function Added(s: Shard, key: Bytes, hash: nat, value: nat, charge: nat, cached: bool): (r: Shard) {
    var h := Handle(key, hash, value, charge, cached, if cached then 2 else 1);
    s.(handles := s.handles[s.next := h], held := s.held + multiset{s.next}, next := s.next + 1,
       inUse := if cached then s.inUse + [s.next] else s.inUse, usage := if cached then s.usage + charge else s.usage)
  }

  lemma NextIsNew(s: Shard)
    requires Good(s)
    ensures s.next !in s.handles && s.next !in s.held && s.next !in s.freed && s.next !in s.lru && s.next !in s.inUse
  {}

  lemma AddedIsListed(s: Shard, key: Bytes, hash: nat, value: nat, charge: nat, cached: bool)
    requires Listed(s) && s.next !in s.handles
    ensures Listed(Added(s, key, hash, value, charge, cached))
  {}

  lemma AddedIsCounted(s: Shard, key: Bytes, hash: nat, value: nat, charge: nat, cached: bool)
    requires Counted(s) && s.next !in s.handles && s.next !in s.held
    ensures Counted(Added(s, key, hash, value, charge, cached))
  {}

  lemma AddedIsFreedOnce(s: Shard, key: Bytes, hash: nat, value: nat, charge: nat, cached: bool)
    requires FreedOnce(s) && s.next !in s.freed
    ensures FreedOnce(Added(s, key, hash, value, charge, cached))
  {}

  lemma AddedKeepsGood(s: Shard, key: Bytes, hash: nat, value: nat, charge: nat, cached: bool)
    requires Good(s)
    ensures Good(Added(s, key, hash, value, charge, cached))
  {
    NextIsNew(s);
    AddedIsListed(s, key, hash, value, charge, cached);
    AddedIsCounted(s, key, hash, value, charge, cached);
    AddedIsFreedOnce(s, key, hash, value, charge, cached);
    var t := Added(s, key, hash, value, charge, cached);
    SameCharges(s.handles, t.handles, s.lru);
    SameCharges(s.handles, t.handles, s.inUse);
    if cached { assert t.inUse[..|s.inUse|] == s.inUse; }
  }

  /** The empty shard; handles are numbered from one, zero being the null pointer. */
  const EMPTY := Shard(map[], [], [], 0, multiset{}, [], 1)

  lemma EmptyIsGood()
    ensures Good(EMPTY) && Tabled(EMPTY, map[], {})
  {
    forall id: nat ensures IsFound(EMPTY, map[], {}, id) {}
    forall k: (Bytes, nat) ensures FindsEntry(EMPTY, map[], {}, k) {}
  }

  /** Two handles that the table cannot tell apart. */
  predicate SameEntry(s: Shard, t: Shard, id: nat) {
    (id in s.handles && s.handles[id].inCache <==> id in t.handles && t.handles[id].inCache) &&
    (id in s.handles && id in t.handles ==> s.handles[id].key == t.handles[id].key && s.handles[id].hash == t.handles[id].hash)
  }

  lemma StaysTabled(s: Shard, t: Shard, m: Contents)
    requires Tabled(s, m, {}) && forall id: nat :: SameEntry(s, t, id)
    ensures Tabled(t, m, {})
  {
    forall id: nat ensures IsFound(t, m, {}, id) { assert IsFound(s, m, {}, id) && SameEntry(s, t, id); }
    forall k ensures FindsEntry(t, m, {}, k) {
      assert FindsEntry(s, m, {}, k);
      if k in m { assert SameEntry(s, t, m[k]); }
    }
  }

  lemma ErasedTabled(s: Shard, m: Contents, id: nat)
    requires Good(s) && Tabled(s, m, {id}) && id in s.handles && s.handles[id].inCache
    ensures Tabled(Erased(s, id), m, {})
  {
    forall x: nat ensures IsFound(Erased(s, id), m, {}, x) { assert IsFound(s, m, {id}, x); }
    forall k ensures FindsEntry(Erased(s, id), m, {}, k) { assert FindsEntry(s, m, {id}, k); }
  }

  lemma RefTabled(s: Shard, m: Contents, id: nat)
    requires Tabled(s, m, {}) && id in s.handles
    ensures Tabled(Ref(s, id), m, {})
  {
    StaysTabled(s, Ref(s, id), m);
  }

  lemma ReleasedTabled(s: Shard, m: Contents, id: nat)
    requires Counted(s) && Tabled(s, m, {}) && id in s.held
    ensures Tabled(Released(s, id), m, {})
  {
    StaysTabled(s, Released(s, id), m);
  }

  lemma RemovedTabled(s: Shard, m: Contents, k: (Bytes, nat))
    requires Tabled(s, m, {}) && k in m
    ensures Tabled(s, m - {k}, {m[k]})
  {
    assert FindsEntry(s, m, {}, k);
    forall id: nat ensures IsFound(s, m - {k}, {m[k]}, id) { assert IsFound(s, m, {}, id); }
    forall j ensures FindsEntry(s, m - {k}, {m[k]}, j) { assert FindsEntry(s, m, {}, j); }
  }

  lemma AddedTabled(s: Shard, m: Contents, key: Bytes, hash: nat, value: nat, charge: nat)
    requires s.next !in s.handles && Tabled(s, m, {})
    ensures var k := (key, hash);
            Tabled(Added(s, key, hash, value, charge, true), m[k := s.next], if k in m then {m[k]} else {})
  {
    var k := (key, hash);
    var t, n, missing := Added(s, key, hash, value, charge, true), m[k := s.next], if k in m then {m[k]} else {};
    assert FindsEntry(s, m, {}, k);
    forall id: nat ensures IsFound(t, n, missing, id) { assert IsFound(s, m, {}, id); }
    forall j ensures FindsEntry(t, n, missing, j) { assert FindsEntry(s, m, {}, j); }
  }

  lemma UncachedTabled(s: Shard, m: Contents, key: Bytes, hash: nat, value: nat, charge: nat)
    requires s.next !in s.handles && Tabled(s, m, {})
    ensures Tabled(Added(s, key, hash, value, charge, false), m, {})
  {
    StaysTabled(s, Added(s, key, hash, value, charge, false), m);
  }

  lemma EntryTabled(s: Shard, m: Contents, key: Bytes, hash: nat)
    requires Tabled(s, m, {})
    ensures (key, hash) in m ==> m[(key, hash)] in s.handles && s.handles[m[(key, hash)]].inCache
  {
    assert FindsEntry(s, m, {}, (key, hash));
  }

  // ----- what an eviction leaves in the table -----

  /** The mapping of `k` stays as it is unless its entry was idle and is so no more. */
  ghost predicate Stays(before: Contents, idle: seq<nat>, after: Contents, left: seq<nat>, k: (Bytes, nat)) {
    (k in after <==> k in before && (before[k] in idle ==> before[k] in left)) && (k in after ==> after[k] == before[k])
  }

  /** Of the idle entries those in `left` stay in the table, of the others all; and
      nothing comes in. */
  ghost predicate Survive(before: Contents, idle: seq<nat>, after: Contents, left: seq<nat>) {
    forall k: (Bytes, nat) {:trigger Stays(before, idle, after, left, k)} :: Stays(before, idle, after, left, k)
  }

  lemma AllSurvive(m: Contents, idle: seq<nat>)
    ensures Survive(m, idle, m, idle)
  {}

  lemma SurviveOn(m0: Contents, l0: seq<nat>, m1: Contents, l1: seq<nat>, m2: Contents, l2: seq<nat>)
    requires Survive(m0, l0, m1, l1) && Survive(m1, l1, m2, l2)
    requires (forall x :: x in l1 ==> x in l0) && forall x :: x in l2 ==> x in l1
    ensures Survive(m0, l0, m2, l2)
  {
    forall k ensures Stays(m0, l0, m2, l2, k) {
      assert Stays(m0, l0, m1, l1, k) && Stays(m1, l1, m2, l2, k);
    }
  }

  lemma SurvivesUnlessIdle(before: Contents, idle: seq<nat>, after: Contents, left: seq<nat>, k: (Bytes, nat))
    requires Survive(before, idle, after, left) && k in before && before[k] !in idle
    ensures k in after && after[k] == before[k]
  {
    assert Stays(before, idle, after, left, k);
  }

  /** The table without the entry of the oldest idle handle. */
  lemma OldestSurvive(s: Shard, m: Contents)
    requires Good(s) && Tabled(s, m, {}) && s.lru != [] && s.lru[0] in s.handles
    ensures var h := s.handles[s.lru[0]]; Survive(m, s.lru, m - {(h.key, h.hash)}, s.lru[1..])
  {
    var id := s.lru[0];
    var h := s.handles[id];
    assert id in s.lru;
    assert IsFound(s, m, {}, id);
    assert s.lru == [id] + s.lru[1..];
    forall k ensures Stays(m, s.lru, m - {(h.key, h.hash)}, s.lru[1..], k) {
      assert FindsEntry(s, m, {}, k);
      assert id !in s.lru[1..];
    }
  }

  /** The new mapping is of no idle entry, and the others are not of the one replaced. */
  lemma SurviveReplacing(s: Shard, m: Contents, key: Bytes, hash: nat, id: nat, after: Contents, left: seq<nat>)
    requires Listed(s) && Tabled(s, m, {}) && id !in s.lru
    requires var replaced := if (key, hash) in m then Some(m[(key, hash)]) else None;
             Survive(m[(key, hash) := id], Idle(s.lru, replaced), after, left)
    ensures Survive(m[(key, hash) := id], s.lru, after, left)
  {
    var k0 := (key, hash);
    var n, replaced := m[k0 := id], if k0 in m then Some(m[k0]) else None;
    var idle := Idle(s.lru, replaced);
    if replaced.Some? { WithoutAll(s.lru, replaced.value); }
    forall k ensures Stays(n, s.lru, after, left, k) {
      assert Stays(n, idle, after, left, k);
      assert FindsEntry(s, m, {}, k) && FindsEntry(s, m, {}, k0);
      if k in n { assert n[k] in idle <==> n[k] in s.lru; }
    }
  }

  class LRUCache {
    const capacity: nat
    const table: HandleTable
    var s: Shard

    ghost predicate Valid() reads this, table {
      table.Valid() && Good(s) && Tabled(s, table.contents, {})
    }

    /** The entry of a key, if the cache has one. */
    ghost function Entry(key: Bytes, hash: nat): (r: Option<nat>) reads this, table {
      if (key, hash) in table.contents then Some(table.contents[(key, hash)]) else None
    }

    constructor (capacity: nat)
      ensures Valid() && this.capacity == capacity && fresh(table) && table.contents == map[] && s == EMPTY
    {
      this.capacity := capacity;
      table := new HandleTable();
      s := EMPTY;
      new;
      EmptyIsGood();
    }

    method Lookup(key: Bytes, hash: nat) returns (r: Option<nat>)
      requires Valid()
      modifies this
      ensures Valid() && r == Entry(key, hash) && (r.Some? ==> r.value in old(s).handles)
      ensures s == if r.Some? then Ref(old(s), r.value) else old(s)
    {
      r := table.Lookup(key, hash);
      EntryTabled(s, table.contents, key, hash);
      if r.Some? {
        RefKeepsGood(s, r.value);
        RefTabled(s, table.contents, r.value);
        s := Ref(s, r.value);
      }
    }

    method Release(id: nat)
      requires Valid() && id in s.held
      modifies this
      ensures Valid() && s == Released(old(s), id)
    {
      ReleasedKeepsGood(s, id);
      ReleasedTabled(s, table.contents, id);
      s := Released(s, id);
    }

    /** The entry has been removed from the table already. */
    method FinishErase(id: Option<nat>)
      requires table.Valid() && Good(s) && Tabled(s, table.contents, if id.Some? then {id.value} else {})
      requires id.Some? ==> id.value in s.handles && s.handles[id.value].inCache
      modifies this
      ensures Valid() && s == if id.Some? then Erased(old(s), id.value) else old(s)
    {
      if id.Some? {
        ErasedKeepsGood(s, id.value);
        ErasedTabled(s, table.contents, id.value);
        s := Erased(s, id.value);
      }
    }

    method Erase(key: Bytes, hash: nat)
      requires Valid()
      modifies this, table
      ensures Valid() && table.contents == old(table.contents) - {(key, hash)}
      ensures old(Entry(key, hash)).Some? ==> old(Entry(key, hash)).value in old(s).handles
      ensures s == if old(Entry(key, hash)).Some? then Erased(old(s), old(Entry(key, hash)).value) else old(s)
    {
      EntryTabled(s, table.contents, key, hash);
      if (key, hash) in table.contents { RemovedTabled(s, table.contents, (key, hash)); }
      var id := table.Remove(key, hash);
      if id.None? { assert table.contents == old(table.contents); }
      FinishErase(id);
    }

    /** Evicts the entry that no client has used for longest. */
    method EvictOldest()
      requires Valid() && s.lru != []
      modifies this, table
      ensures Valid() && s.lru == old(s.lru)[1..] && s.usage <= old(s.usage) && s.inUse == old(s.inUse) && s.held == old(s.held)
      ensures s.freed == old(s.freed) + [old(s.lru)[0]] && s.next == old(s.next)
      ensures forall id :: id in old(s.handles) && id != old(s.lru)[0] ==> id in s.handles && s.handles[id] == old(s.handles)[id]
      ensures Survive(old(table.contents), old(s.lru), table.contents, s.lru)
    {
      var h := s.handles[s.lru[0]];
      assert IsFound(s, table.contents, {}, s.lru[0]);
      OldestErased(s);
      OldestSurvive(s, table.contents);
      Erase(h.key, h.hash);
    }

    /** Inserts an entry, replaces one of the same key, and evicts until the charge
        fits or no idle entry is left. */
    method Insert(key: Bytes, hash: nat, value: nat, charge: nat) returns (id: nat)
      requires Valid()
      modifies this, table
      ensures Valid() && id == old(s.next) && s.held == old(s.held) + multiset{id}
      ensures s.usage <= capacity || s.lru == []
      ensures id in s.handles && s.handles[id] == Handle(key, hash, value, charge, capacity > 0, if capacity > 0 then 2 else 1)
      ensures capacity > 0 ==> Entry(key, hash) == Some(id)
      ensures old(s.freed) <= s.freed && Suffix(s.lru, Idle(old(s).lru, if capacity > 0 then old(Entry(key, hash)) else None))
      ensures Survive(if capacity > 0 then old(table.contents)[(key, hash) := id] else old(table.contents), old(s).lru, table.contents, s.lru)
      ensures StillUsed(old(s), s, if capacity > 0 then old(Entry(key, hash)) else None)
    {
      id := s.next;
      ghost var before, m := s, table.contents;
      NextIsNew(s);
      if capacity > 0 {
        AddCached(key, hash, value, charge);
      } else {
        AddUncached(key, hash, value, charge);
      }
      ghost var added := table.contents;
      EvictToCapacity(id);
      if capacity > 0 {
        SurviveReplacing(before, m, key, hash, id, table.contents, s.lru);
        SurvivesUnlessIdle(added, before.lru, table.contents, s.lru, (key, hash));
      }
    }

    /** Without capacity the entry is the client's alone. */
    method AddUncached(key: Bytes, hash: nat, value: nat, charge: nat)
      requires Valid() && s.next !in s.handles && s.next !in s.lru
      modifies this
      ensures Valid() && s.held == old(s).held + multiset{old(s).next} && s.lru == old(s).lru && s.freed == old(s).freed
      ensures old(s).next in s.handles && s.handles[old(s).next] == Handle(key, hash, value, charge, false, 1)
      ensures StillUsed(old(s), s, None)
    {
      AddedKeepsGood(s, key, hash, value, charge, false);
      UncachedTabled(s, table.contents, key, hash, value, charge);
      s := Added(s, key, hash, value, charge, false);
    }

    /** The new entry enters the table, and the one it replaces leaves the cache. */
    method AddCached(key: Bytes, hash: nat, value: nat, charge: nat)
      requires Valid() && s.next !in s.handles && s.next !in s.lru
      modifies this, table
      ensures Valid() && Entry(key, hash) == Some(old(s).next) && s.held == old(s).held + multiset{old(s).next}
      ensures old(s).next in s.handles && s.handles[old(s).next] == Handle(key, hash, value, charge, true, 2)
      ensures old(s).freed <= s.freed && s.lru == Idle(old(s).lru, old(Entry(key, hash)))
      ensures table.contents == old(table.contents)[(key, hash) := old(s).next] && StillUsed(old(s), s, old(Entry(key, hash)))
    {
      AddedKeepsGood(s, key, hash, value, charge, true);
      EntryTabled(s, table.contents, key, hash);
      AddedTabled(s, table.contents, key, hash, value, charge);
      ReplacedEffect(s, key, hash, value, charge, Entry(key, hash));
      var id := s.next;
      s := Added(s, key, hash, value, charge, true);
      var replaced := table.Insert(Item(key, hash, id));
      FinishErase(replaced);
    }

    method EvictToCapacity(ghost id: nat)
      requires Valid() && id in s.handles && id !in s.lru
      modifies this, table
      ensures Valid() && s.held == old(s).held && (s.usage <= capacity || s.lru == [])
      ensures id in s.handles && s.handles[id] == old(s.handles)[id] && StillUsed(old(s), s, None)
      ensures Survive(old(table.contents), old(s.lru), table.contents, s.lru)
      ensures old(s.freed) <= s.freed && Suffix(s.lru, old(s.lru))
    {
      ghost var n := 0;
      assert s.lru[0..] == s.lru;
      AllSurvive(table.contents, s.lru);
      while s.usage > capacity && s.lru != []
        invariant Valid() && s.held == old(s.held) && id in s.handles && s.handles[id] == old(s.handles)[id]
        invariant StillUsed(old(s), s, None) && Survive(old(table.contents), old(s.lru), table.contents, s.lru)
        invariant old(s.freed) <= s.freed && n <= |old(s.lru)| && s.lru == old(s.lru)[n..]
        decreases |s.lru|
      {
        ghost var t, m := s, table.contents;
        EvictOldest();
        SurviveOn(old(table.contents), old(s.lru), m, t.lru, table.contents, s.lru);
        n := n + 1;
      }
    }

    method Prune()
      requires Valid()
      modifies this, table
      ensures Valid() && s.lru == [] && s.inUse == old(s.inUse) && s.held == old(s.held)
      ensures s.freed == old(s.freed) + old(s.lru)
    {
      ghost var lru, freed := s.lru, s.freed;
      while s.lru != []
        invariant Valid() && s.inUse == old(s.inUse) && s.held == old(s.held) && s.freed + s.lru == freed + lru
        decreases |s.lru|
      {
        HeadMoves(s.freed, s.lru);
        EvictOldest();
      }
      assert s.freed + [] == s.freed;
    }
  }

  /** Entries in use stay so, untouched, but for the one replaced. */
  ghost predicate StillUsed(s: Shard, t: Shard, replaced: Option<nat>) {
    forall id :: id in s.inUse && id in s.handles && replaced != Some(id) ==>
      id in t.inUse && id in t.handles && t.handles[id] == s.handles[id]
  }

  ghost predicate Suffix(a: seq<nat>, b: seq<nat>) {
    exists n :: 0 <= n <= |b| && a == b[n..]
  }

  /** The idle entries once the entry of the same key is out. */
  function Idle(lru: seq<nat>, replaced: Option<nat>): (r: seq<nat>) {
    if replaced.Some? then Without(lru, replaced.value) else lru
  }

  lemma HeadMoves(a: seq<nat>, b: seq<nat>)
    requires b != []
    ensures (a + [b[0]]) + b[1..] == a + b
  {}

  lemma FirstWithout(ids: seq<nat>)
    requires Distinct(ids) && ids != []
    ensures Without(ids, ids[0]) == ids[1..]
  {
    FrontWithout(ids[0], ids[1..]);
    assert ids == [ids[0]] + ids[1..];
  }

  lemma {:induction false} FrontWithout(id: nat, rest: seq<nat>)
    requires id !in rest
    ensures Without([id] + rest, id) == rest
  {
    if rest == [] {
      assert [id] + rest == [id];
      assert [id][..0] == [];
    } else {
      var front := rest[..|rest| - 1];
      FrontWithout(id, front);
      assert ([id] + rest)[..|rest|] == [id] + front;
    }
  }
}
