/** User keys, internal keys and their orders (db/dbformat.h, db/dbformat.cc,
    util/comparator.cc). */
module Keys {

  type byte = x: int | 0 <= x < 256
  type Bytes = seq<byte>

  /** The engine compares user keys only through a comparator.  Everywhere but in
      this module a user key is therefore a point of a dense linear order;
      `RankIsEmbedding` shows that byte strings under the bytewise comparator
      embed into it, so nothing is lost. */
  type UserKey = real

  type SequenceNumber = x: int | 0 <= x <= MAX_SEQUENCE

  const MAX_SEQUENCE := 0xFF_FFFF_FFFF_FFFF

  // ----- the bytewise comparator -----

  /** Three-way comparison of byte strings is decided by `BytesLess` and equality. */
  predicate BytesLess(a: Bytes, b: Bytes) {
    if b == [] then false
    else if a == [] then true
    else a[0] < b[0] || (a[0] == b[0] && BytesLess(a[1..], b[1..]))
  }

  /** The position of a byte string in the dense order of user keys: its bytes,
      plus one, are the digits of a fraction in base 257. */
  function Rank(s: Bytes): (r: UserKey)
    ensures 0.0 <= r < 1.0
    ensures s != [] ==> 0.0 < r
  {
    if s == [] then 0.0 else (s[0] as real + 1.0 + Rank(s[1..])) / 257.0
  }

  lemma {:induction false} RankIsEmbedding(a: Bytes, b: Bytes)
    ensures BytesLess(a, b) <==> Rank(a) < Rank(b)
    ensures a == b <==> Rank(a) == Rank(b)
  {
    if a != [] && b != [] {
      RankIsEmbedding(a[1..], b[1..]);
      var ra, rb := Rank(a[1..]), Rank(b[1..]);
      assert Rank(a) * 257.0 == a[0] as real + 1.0 + ra;
      assert Rank(b) * 257.0 == b[0] as real + 1.0 + rb;
      if a[0] < b[0] {
        assert a[0] as real + 1.0 <= b[0] as real;
      } else if b[0] < a[0] {
        assert b[0] as real + 1.0 <= a[0] as real;
      }
      assert a == [a[0]] + a[1..] && b == [b[0]] + b[1..];
    }
  }

  /** The bytewise order is a strict total order, read off its rank. */
  lemma BytesOrderIsTotal(a: Bytes, b: Bytes, c: Bytes)
    ensures !BytesLess(a, a)
    ensures BytesLess(a, b) || a == b || BytesLess(b, a)
    ensures BytesLess(a, b) && BytesLess(b, c) ==> BytesLess(a, c)
  {
    RankIsEmbedding(a, a);
    RankIsEmbedding(a, b);
    RankIsEmbedding(b, a);
    RankIsEmbedding(b, c);
    RankIsEmbedding(a, c);
  }

  /** The strings agree on `n` bytes and `a` is smaller at position `n`. */
  lemma {:induction false} LessAtDifference(a: Bytes, b: Bytes, n: nat)
    requires n < |b| && n <= |a| && a[..n] == b[..n]
    requires n == |a| || a[n] < b[n]
    ensures BytesLess(a, b)
  {
    if n > 0 {
      assert a[0] == a[..n][0] == b[..n][0] == b[0];
      assert a[1..][..n - 1] == a[..n][1..] == b[..n][1..] == b[1..][..n - 1];
      LessAtDifference(a[1..], b[1..], n - 1);
    }
  }

  /** The strings first differ at `d`. */
  predicate DifferAt(a: Bytes, b: Bytes, d: nat) {
    d < |a| && d < |b| && a[..d] == b[..d] && a[d] != b[d]
  }

  /** The byte at `d` can be raised by one and stay below that of `limit`. */
  predicate RoomAt(start: Bytes, limit: Bytes, d: nat) {
    DifferAt(start, limit, d) && start[d] < 0xff && start[d] + 1 < limit[d]
  }

  function Raised(a: Bytes, d: nat): (r: Bytes)
    requires d < |a| && a[d] < 0xff
  {
    a[..d] + [a[d] + 1]
  }

  lemma SameBefore(a: Bytes, b: Bytes, d: nat, i: nat)
    requires i < d <= |a| && d <= |b| && a[..d] == b[..d]
    ensures a[i] == b[i]
  {
    assert a[..d][i] == b[..d][i];
  }

  lemma DifferOnce(a: Bytes, b: Bytes, d: nat, e: nat)
    requires DifferAt(a, b, d) && e <= |a| && e <= |b| && a[..e] == b[..e] && (e < |a| && e < |b| ==> a[e] != b[e])
    ensures d == e
  {
    if d < e {
      SameBefore(a, b, e, d);
    } else if e < d {
      SameBefore(a, b, d, e);
    }
  }

  /** Shortens `start` to a string still below `limit` (the bytewise comparator). */
  method FindShortestSeparator(start: Bytes, limit: Bytes) returns (sep: Bytes)
    ensures |sep| <= |start|
    ensures sep == start || (BytesLess(start, sep) && BytesLess(sep, limit))
    ensures BytesLess(start, limit) ==> BytesLess(sep, limit)
    ensures forall d: nat :: RoomAt(start, limit, d) ==> sep == Raised(start, d)
    ensures (forall d: nat :: !RoomAt(start, limit, d)) ==> sep == start
  {
    sep := start;
    var minLength := if |start| < |limit| then |start| else |limit|;
    var diffIndex := 0;
    while diffIndex < minLength && start[diffIndex] == limit[diffIndex]
      invariant diffIndex <= minLength
      invariant start[..diffIndex] == limit[..diffIndex]
    {
      diffIndex := diffIndex + 1;
    }
    forall d: nat | DifferAt(start, limit, d) ensures d == diffIndex {
      DifferOnce(start, limit, d, diffIndex);
    }
    if diffIndex < minLength {
      assert DifferAt(start, limit, diffIndex);
      var diffByte := start[diffIndex];
      if diffByte < 0xff && diffByte + 1 < limit[diffIndex] {
        assert RoomAt(start, limit, diffIndex);
        sep := start[..diffIndex] + [diffByte + 1];
        assert sep[..diffIndex] == start[..diffIndex];
        LessAtDifference(start, sep, diffIndex);
        LessAtDifference(sep, limit, diffIndex);
      }
    }
  }

  /** Shortens `key` to a string not below it. */
  method FindShortSuccessor(key: Bytes) returns (succ: Bytes)
    ensures |succ| <= |key|
    ensures succ == key || BytesLess(key, succ)
    ensures succ == key <==> forall i :: 0 <= i < |key| ==> key[i] == 0xff
    ensures forall i :: 0 <= i < |key| && key[i] != 0xff && (forall j :: 0 <= j < i ==> key[j] == 0xff) ==> succ == Raised(key, i)
  {
    for i := 0 to |key|
      invariant forall j :: 0 <= j < i ==> key[j] == 0xff
    {
      if key[i] != 0xff {
        succ := key[..i] + [key[i] + 1];
        assert succ[..i] == key[..i];
        LessAtDifference(key, succ, i);
        BytesOrderIsTotal(key, key, key);
        return;
      }
    }
    succ := key;
  }

  // ----- internal keys -----

  datatype Kind = Deletion | Value

  datatype IKey = IKey(user: UserKey, sn: SequenceNumber, kind: Kind)

  /** The packed 64-bit trailer: sequence number above an eight-bit type. */
  function PackSequenceAndType(sn: SequenceNumber, kind: Kind): (r: nat) {
    sn * 256 + if kind.Value? then 1 else 0
  }

  /** InternalKeyComparator::Compare(a, b) < 0, on the packed trailers. */
  predicate PackedLess(a: IKey, b: IKey) {
    a.user < b.user ||
    (a.user == b.user && PackSequenceAndType(a.sn, a.kind) > PackSequenceAndType(b.sn, b.kind))
  }

  /** The same order spelled out: user key up, sequence down, type down. */
  predicate Less(a: IKey, b: IKey) {
    a.user < b.user ||
    (a.user == b.user && (a.sn > b.sn || (a.sn == b.sn && a.kind.Value? && b.kind.Deletion?)))
  }

  predicate AtMost(a: IKey, b: IKey) {
    !Less(b, a)
  }

  lemma PackedOrder(a: IKey, b: IKey)
    ensures PackedLess(a, b) <==> Less(a, b)
  {}

  /** The key a lookup of `user` at snapshot `sn` seeks to: the type is the
      largest one, so every entry of that user key visible at `sn` follows. */
  function SeekKey(user: UserKey, sn: SequenceNumber): (r: IKey) {
    IKey(user, sn, Value)
  }

  /** Strict order of stored entries: a (user key, sequence) pair occurs once. */
  predicate Before(a: IKey, b: IKey) {
    a.user < b.user || (a.user == b.user && a.sn > b.sn)
  }

  datatype Entry = Entry(key: IKey, value: Bytes)

  ghost predicate Sorted(es: seq<Entry>) {
    forall i, j :: 0 <= i < j < |es| ==> Before(es[i].key, es[j].key)
  }

  // ----- separators of internal keys over byte strings -----

  datatype RawKey = RawKey(user: Bytes, sn: SequenceNumber, kind: Kind)

  function Ranked(k: RawKey): (r: IKey) {
    IKey(Rank(k.user), k.sn, k.kind)
  }

  /** A shortened user key gets the largest sequence number, the earliest key of
      that user key. */
  method FindShortestInternalSeparator(start: RawKey, limit: RawKey) returns (sep: RawKey)
    ensures AtMost(Ranked(start), Ranked(sep))
    ensures Less(Ranked(start), Ranked(limit)) ==> Less(Ranked(sep), Ranked(limit))
    ensures sep == start || (|sep.user| < |start.user| && BytesLess(start.user, sep.user) && BytesLess(sep.user, limit.user))
    ensures forall d: nat :: RoomAt(start.user, limit.user, d) && d + 1 < |start.user| ==> sep == RawKey(Raised(start.user, d), MAX_SEQUENCE, Value)
    ensures (forall d: nat :: !(RoomAt(start.user, limit.user, d) && d + 1 < |start.user|)) ==> sep == start
  {
    var tmp := FindShortestSeparator(start.user, limit.user);
    RankIsEmbedding(start.user, tmp);
    RankIsEmbedding(tmp, limit.user);
    if |tmp| < |start.user| && BytesLess(start.user, tmp) {
      sep := RawKey(tmp, MAX_SEQUENCE, Value);
    } else {
      sep := start;
    }
  }

  method FindShortInternalSuccessor(key: RawKey) returns (succ: RawKey)
    ensures AtMost(Ranked(key), Ranked(succ))
    ensures succ == key || (|succ.user| < |key.user| && succ.sn == MAX_SEQUENCE && succ.kind.Value?)
    ensures forall i :: 0 <= i < |key.user| - 1 && key.user[i] != 0xff && (forall j :: 0 <= j < i ==> key.user[j] == 0xff) ==>
              succ == RawKey(Raised(key.user, i), MAX_SEQUENCE, Value)
  {
    var tmp := FindShortSuccessor(key.user);
    RankIsEmbedding(key.user, tmp);
    if |tmp| < |key.user| && BytesLess(key.user, tmp) {
      succ := RawKey(tmp, MAX_SEQUENCE, Value);
    } else {
      succ := key;
    }
  }
}
