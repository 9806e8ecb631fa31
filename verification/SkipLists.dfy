/** The memtable's skip list (db/skiplist.h): one writer, and readers that take
    no lock.  A node is named by its key; `next[l]` maps each node linked at
    level `l` to the node after it, with sequentially consistent reads. */
module SkipLists {

  type Key = real

  const MAX_HEIGHT := 12

  /** The head, a node, or the null pointer, which counts as infinite. */
  datatype Ref = Head | At(key: Key) | Null

  type Level = map<Ref, Ref>
  type Levels = seq<Level>

  predicate Below(a: Ref, b: Ref) {
    match (a, b)
    case (Head, Head) => false
    case (Head, _) => true
    case (At(_), Head) => false
    case (At(j), At(k)) => j < k
    case (At(_), Null) => true
    case (Null, _) => false
  }

  /** Node `b` comes right after node `a`. */
  ghost predicate Follows(m: Level, a: Ref, b: Ref) {
    Below(a, b) && (b == Null || b in m) && forall q :: q in m && Below(a, q) ==> !Below(q, b)
  }

  ghost predicate LinkedRight(m: Level, p: Ref) {
    p in m ==> Follows(m, p, m[p])
  }

  ghost predicate SortedLevel(m: Level) {
    Head in m && Null !in m && forall p {:trigger LinkedRight(m, p)} :: LinkedRight(m, p)
  }

  ghost predicate Within(ls: Levels, l: nat) {
    0 < l < |ls| ==> ls[l].Keys <= ls[l - 1].Keys
  }

  /** Each level is sorted and a subsequence of the level below. */
  ghost predicate Sound(ls: Levels) {
    |ls| == MAX_HEIGHT && (forall l :: 0 <= l < MAX_HEIGHT ==> SortedLevel(ls[l])) &&
    forall l: nat {:trigger Within(ls, l)} :: Within(ls, l)
  }

  /** The smallest linked node that is not below `k`, or null. */
  ghost predicate IsCeiling(m: Level, k: Key, r: Ref) {
    !Below(r, At(k)) && (r == Null || r in m) && forall q :: q in m && !Below(q, At(k)) ==> !Below(q, r)
  }

  /** The largest linked node below `k`, or the head. */
  ghost predicate IsFloor(m: Level, k: Key, r: Ref) {
    r in m && Below(r, At(k)) && forall q :: q in m && Below(q, At(k)) ==> !Below(r, q)
  }

  ghost predicate IsLast(m: Level, r: Ref) {
    r in m && forall q :: q in m ==> !Below(r, q)
  }

  /** Where a key belongs at a level. */
  ghost predicate IsGap(m: Level, k: Key, p: Ref) {
    p in m && Below(p, At(k)) && !Below(m[p], At(k))
  }

  lemma GapEnds(m: Level, k: Key, p: Ref)
    requires SortedLevel(m) && IsGap(m, k, p)
    ensures IsCeiling(m, k, m[p]) && IsFloor(m, k, p)
  {
    assert LinkedRight(m, p);
  }

  ghost function After(m: Level, x: Ref): (r: set<Ref>) {
    set q | q in m && Below(x, q)
  }

  // ----- linking a node at one level -----

  function Link(m: Level, p: Ref, k: Key): (r: Level)
    requires p in m
  {
    m[At(k) := m[p]][p := At(k)]
  }

  lemma LinkKeepsSorted(m: Level, p: Ref, k: Key)
    requires SortedLevel(m) && IsGap(m, k, p) && At(k) !in m
    ensures SortedLevel(Link(m, p, k)) && Link(m, p, k).Keys == m.Keys + {At(k)}
  {
    var t := Link(m, p, k);
    assert LinkedRight(m, p);
    forall a ensures LinkedRight(t, a) {
      assert LinkedRight(m, a);
    }
  }

  /** A link at level `l`, once the node is linked below. */
  ghost predicate MayLink(ls: Levels, l: nat, p: Ref, k: Key) {
    Sound(ls) && l < MAX_HEIGHT && IsGap(ls[l], k, p) && At(k) !in ls[l] && (l > 0 ==> At(k) in ls[l - 1])
  }

  lemma LinkKeepsSound(ls: Levels, l: nat, p: Ref, k: Key)
    requires MayLink(ls, l, p, k)
    ensures Sound(ls[l := Link(ls[l], p, k)])
  {
    LinkKeepsSorted(ls[l], p, k);
    var t := ls[l := Link(ls[l], p, k)];
    forall i: nat ensures Within(t, i) {
      assert Within(ls, i);
    }
  }

  lemma {:induction false} NotAbove(ls: Levels, k: Key, l: nat)
    requires Sound(ls) && At(k) !in ls[0] && l < MAX_HEIGHT
    ensures At(k) !in ls[l]
    decreases l
  {
    if l > 0 {
      NotAbove(ls, k, l - 1);
      assert Within(ls, l);
    }
  }

  class SkipList {
    var next: Levels
    var maxHeight: nat

    ghost predicate Valid() reads this {
      Sound(next) && 1 <= maxHeight <= MAX_HEIGHT &&
      forall l :: maxHeight <= l < MAX_HEIGHT ==> next[l] == map[Head := Null]
    }

    constructor ()
      ensures Valid() && forall l :: 0 <= l < MAX_HEIGHT ==> next[l].Keys == {Head}
    {
      next, maxHeight := seq(MAX_HEIGHT, _ => map[Head := Null]), 1;
    }

    method FindGreaterOrEqual(k: Key) returns (r: Ref, prev: seq<Ref>)
      requires Valid()
      ensures IsCeiling(next[0], k, r)
      ensures |prev| == MAX_HEIGHT && forall l :: 0 <= l < maxHeight ==> IsGap(next[l], k, prev[l])
    {
      var x, level := Head, maxHeight - 1;
      prev := seq(MAX_HEIGHT, _ => Head);
      while true
        invariant 0 <= level < maxHeight && x in next[level] && Below(x, At(k)) && |prev| == MAX_HEIGHT
        invariant forall l :: level < l < maxHeight ==> IsGap(next[l], k, prev[l])
        decreases level, After(next[level], x)
      {
        var n := next[level][x];
        assert LinkedRight(next[level], x);
        if Below(n, At(k)) {
          assert n in After(next[level], x) && n !in After(next[level], n);
          x := n;
        } else {
          prev := prev[level := x];
          if level == 0 {
            GapEnds(next[0], k, x);
            return n, prev;
          }
          assert Within(next, level);
          level := level - 1;
        }
      }
    }

    method FindLessThan(k: Key) returns (r: Ref)
      requires Valid()
      ensures IsFloor(next[0], k, r)
    {
      var x, level := Head, maxHeight - 1;
      while true
        invariant 0 <= level < maxHeight && x in next[level] && Below(x, At(k))
        decreases level, After(next[level], x)
      {
        var n := next[level][x];
        assert LinkedRight(next[level], x);
        if n == Null || !Below(n, At(k)) {
          if level == 0 {
            GapEnds(next[0], k, x);
            return x;
          }
          assert Within(next, level);
          level := level - 1;
        } else {
          assert n in After(next[level], x) && n !in After(next[level], n);
          x := n;
        }
      }
    }

    method FindLast() returns (r: Ref)
      requires Valid()
      ensures IsLast(next[0], r)
    {
      var x, level := Head, maxHeight - 1;
      while true
        invariant 0 <= level < maxHeight && x in next[level]
        decreases level, After(next[level], x)
      {
        var n := next[level][x];
        assert LinkedRight(next[level], x);
        if n == Null {
          if level == 0 {
            return x;
          }
          assert Within(next, level);
          level := level - 1;
        } else {
          assert n in After(next[level], x) && n !in After(next[level], n);
          x := n;
        }
      }
    }

    /** `height` is what RandomHeight draws.  The list is sound after every link. */
    method Insert(k: Key, height: nat)
      requires Valid() && At(k) !in next[0] && 1 <= height <= MAX_HEIGHT
      modifies this
      ensures Valid() && |next| == |old(next)|
      ensures forall l :: 0 <= l < MAX_HEIGHT ==> next[l].Keys == old(next[l].Keys) + if l < height then {At(k)} else {}
    {
      var r, prev := FindGreaterOrEqual(k);
      if height > maxHeight {
        for i := maxHeight to height
          invariant |prev| == MAX_HEIGHT && forall l :: 0 <= l < i ==> IsGap(next[l], k, prev[l])
        {
          prev := prev[i := Head];
        }
        maxHeight := height;
      }
      for i := 0 to height
        invariant Sound(next) && maxHeight == (if height > old(maxHeight) then height else old(maxHeight))
        invariant forall l :: i <= l < MAX_HEIGHT ==> next[l] == old(next[l])
        invariant forall l :: 0 <= l < i ==> next[l].Keys == old(next[l].Keys) + {At(k)}
      {
        NotAbove(old(next), k, i);
        LinkKeepsSound(next, i, prev[i], k);
        next := next[i := Link(next[i], prev[i], k)];
      }
    }
  }

  // ----- a reader beside the writer -----

  /** FindGreaterOrEqual without `prev`, one pointer read at a time. */
  datatype Reader = Searching(x: Ref, level: nat) | Found(r: Ref)

  datatype Event = Links(level: nat, p: Ref, k: Key) | Reads

  ghost predicate Possible(ls: Levels, rd: Reader, e: Event) {
    match e
    case Links(l, p, k) => MayLink(ls, l, p, k)
    case Reads => rd.Searching? && rd.level < |ls| && rd.x in ls[rd.level]
  }

  function ReadOn(ls: Levels, rd: Reader, target: Key): (r: Reader)
    requires rd.Searching? && rd.level < |ls| && rd.x in ls[rd.level]
  {
    var n := ls[rd.level][rd.x];
    if Below(n, At(target)) then Searching(n, rd.level)
    else if rd.level == 0 then Found(n)
    else Searching(rd.x, rd.level - 1)
  }

  /** Each read moves the search to a later node or one level down, never back. */
  lemma ReadMovesOn(ls: Levels, rd: Reader, target: Key)
    requires Sound(ls) && rd.Searching? && rd.level < MAX_HEIGHT && rd.x in ls[rd.level]
    ensures match ReadOn(ls, rd, target)
            case Searching(x, level) => (level == rd.level && Below(rd.x, x)) || (level == rd.level - 1 && x == rd.x)
            case Found(r) => rd.level == 0 && Below(rd.x, r)
  {
    assert LinkedRight(ls[rd.level], rd.x);
  }

  ghost predicate Legal(ls: Levels, rd: Reader, target: Key, es: seq<Event>)
    decreases |es|
  {
    es == [] ||
    (Possible(ls, rd, es[0]) &&
     match es[0]
     case Links(l, p, k) => Legal(ls[l := Link(ls[l], p, k)], rd, target, es[1..])
     case Reads => Legal(ls, ReadOn(ls, rd, target), target, es[1..]))
  }

  ghost function Final(ls: Levels, rd: Reader, target: Key, es: seq<Event>): (Levels, Reader)
    requires Legal(ls, rd, target, es)
    decreases |es|
  {
    if es == [] then (ls, rd)
    else
      match es[0]
      case Links(l, p, k) => Final(ls[l := Link(ls[l], p, k)], rd, target, es[1..])
      case Reads => Final(ls, ReadOn(ls, rd, target), target, es[1..])
  }

  /** What holds of a search whose beginning saw the nodes `start`. */
  ghost predicate OnTrack(ls: Levels, rd: Reader, target: Key, start: set<Ref>) {
    Sound(ls) && start <= ls[0].Keys &&
    match rd
    case Searching(x, level) => level < MAX_HEIGHT && x in ls[level] && Below(x, At(target))
    case Found(r) =>
      !Below(r, At(target)) && (r == Null || r in ls[0]) && forall q :: q in start && !Below(q, At(target)) ==> !Below(q, r)
  }

  lemma LinkStaysOnTrack(ls: Levels, rd: Reader, target: Key, start: set<Ref>, l: nat, p: Ref, k: Key)
    requires OnTrack(ls, rd, target, start) && MayLink(ls, l, p, k)
    ensures OnTrack(ls[l := Link(ls[l], p, k)], rd, target, start)
  {
    LinkKeepsSound(ls, l, p, k);
    LinkKeepsSorted(ls[l], p, k);
  }

  lemma ReadStaysOnTrack(ls: Levels, rd: Reader, target: Key, start: set<Ref>)
    requires OnTrack(ls, rd, target, start) && Possible(ls, rd, Reads)
    ensures OnTrack(ls, ReadOn(ls, rd, target), target, start)
  {
    var n := ls[rd.level][rd.x];
    assert LinkedRight(ls[rd.level], rd.x);
    assert Within(ls, rd.level);
    if rd.level == 0 && !Below(n, At(target)) {
      GapEnds(ls[0], target, rd.x);
    }
  }

  lemma {:induction false} RunStaysOnTrack(ls: Levels, rd: Reader, target: Key, start: set<Ref>, es: seq<Event>)
    requires OnTrack(ls, rd, target, start) && Legal(ls, rd, target, es)
    ensures var (ls', rd') := Final(ls, rd, target, es); OnTrack(ls', rd', target, start)
    decreases |es|
  {
    if es != [] {
      match es[0]
      case Links(l, p, k) =>
        LinkStaysOnTrack(ls, rd, target, start, l, p, k);
        RunStaysOnTrack(ls[l := Link(ls[l], p, k)], rd, target, start, es[1..]);
      case Reads =>
        ReadStaysOnTrack(ls, rd, target, start);
        RunStaysOnTrack(ls, ReadOn(ls, rd, target), target, start, es[1..]);
    }
  }

  /** However the writer's links fall between the reader's reads, and whatever
      stale height the reader starts from: the list stays sound, the node found
      is not below the target, and it is no later than any node at or after the
      target that was linked when the search began; a key that was there is found. */
  lemma ConcurrentSearch(ls: Levels, level: nat, target: Key, es: seq<Event>)
    requires Sound(ls) && level < MAX_HEIGHT && Legal(ls, Searching(Head, level), target, es)
    ensures var (ls', rd) := Final(ls, Searching(Head, level), target, es);
            Sound(ls') &&
            (rd.Found? ==>
              !Below(rd.r, At(target)) && (rd.r == Null || rd.r in ls'[0]) &&
              (forall q :: q in ls[0] && !Below(q, At(target)) ==> !Below(q, rd.r)) &&
              (At(target) in ls[0] ==> rd.r == At(target)))
  {
    RunStaysOnTrack(ls, Searching(Head, level), target, ls[0].Keys, es);
  }
}
