/** The database iterator (db/db_iter.cc): the user's view of a snapshot, read
    off the merged entries of the memtables and files.

    `View` lists the live pairs in key order.  Whatever calls are made, in either
    direction, the iterator stands where a plain cursor over that list would;
    `ViewIsSnapshot` ties the list to the newest-entry lookup. */
module DbIterator {
  import opened Keys
  import opened Lookup
  import opened Versions
  import opened Cursors
  import opened Merging

  // ----- what the iterator must show -----

  predicate Seen(es: seq<Entry>, s: SequenceNumber, i: nat) {
    i < |es| && es[i].key.sn <= s
  }

  /** Entry `i` is a value and the newest of its user key that the snapshot sees. */
  ghost predicate Live(es: seq<Entry>, s: SequenceNumber, i: nat) {
    Seen(es, s, i) && es[i].key.kind.Value? &&
    forall j :: 0 <= j < i && es[j].key.user == es[i].key.user ==> !Seen(es, s, j)
  }

  datatype Pair = Pair(key: UserKey, value: Bytes)

  /** The live keys among the first `n` entries, with their values. */
  ghost function ViewOf(es: seq<Entry>, s: SequenceNumber, n: nat): (r: seq<Pair>)
    requires n <= |es|
  {
    if n == 0 then []
    else if Live(es, s, n - 1) then ViewOf(es, s, n - 1) + [Pair(es[n - 1].key.user, es[n - 1].value)]
    else ViewOf(es, s, n - 1)
  }

  /** The snapshot as a sorted map. */
  ghost function View(es: seq<Entry>, s: SequenceNumber): (r: seq<Pair>) {
    ViewOf(es, s, |es|)
  }

  lemma {:induction false} ViewAt(es: seq<Entry>, s: SequenceNumber, n: nat, i: nat)
    requires i < n <= |es| && Live(es, s, i)
    ensures |ViewOf(es, s, i)| < |ViewOf(es, s, n)|
    ensures ViewOf(es, s, n)[|ViewOf(es, s, i)|] == Pair(es[i].key.user, es[i].value)
  {
    if i < n - 1 { ViewAt(es, s, n - 1, i); }
  }

  lemma {:induction false} ViewFrom(es: seq<Entry>, s: SequenceNumber, n: nat, p: nat) returns (i: nat)
    requires n <= |es| && p < |ViewOf(es, s, n)|
    ensures i < n && Live(es, s, i) && |ViewOf(es, s, i)| == p
    ensures ViewOf(es, s, n)[p] == Pair(es[i].key.user, es[i].value)
  {
    if Live(es, s, n - 1) && p == |ViewOf(es, s, n)| - 1 {
      i := n - 1;
    } else {
      i := ViewFrom(es, s, n - 1, p);
    }
  }

  lemma {:induction false} ViewGrows(es: seq<Entry>, s: SequenceNumber, m: nat, n: nat)
    requires m <= n <= |es|
    ensures |ViewOf(es, s, m)| <= |ViewOf(es, s, n)|
    ensures (forall i :: m <= i < n ==> !Live(es, s, i)) ==> ViewOf(es, s, m) == ViewOf(es, s, n)
  {
    if m < n { ViewGrows(es, s, m, n - 1); }
  }

  /** The view lists, in key order and each once, exactly the keys a point read
      finds at the snapshot, with the values it finds. */
  lemma ViewIsSnapshot(es: seq<Entry>, s: SequenceNumber, k: UserKey, value: Bytes)
    requires Sorted(es)
    ensures Pair(k, value) in View(es, s) <==> Answer(AsSet(es), k, s) == Some(value)
    ensures forall p, q :: 0 <= p < q < |View(es, s)| ==> View(es, s)[p].key < View(es, s)[q].key
  {
    if Pair(k, value) in View(es, s) {
      var p :| 0 <= p < |View(es, s)| && View(es, s)[p] == Pair(k, value);
      var i := ViewFrom(es, s, |es|, p);
      LiveIsNewest(es, s, i);
    }
    if Answer(AsSet(es), k, s) == Some(value) {
      var e :| IsNewest(AsSet(es), k, s, e) && Content(e) == Some(value);
      var i :| 0 <= i < |es| && es[i] == e;
      NewestIsLive(es, s, i);
      ViewAt(es, s, |es|, i);
    }
    forall p, q | 0 <= p < q < |View(es, s)| ensures View(es, s)[p].key < View(es, s)[q].key {
      ViewSorted(es, s, p, q);
    }
  }

  lemma LiveIsNewest(es: seq<Entry>, s: SequenceNumber, i: nat)
    requires Sorted(es) && Live(es, s, i)
    ensures Answer(AsSet(es), es[i].key.user, s) == Some(es[i].value)
  {
    assert IsNewest(AsSet(es), es[i].key.user, s, es[i]);
    AnswerIs(AsSet(es), es[i].key.user, s, es[i]);
  }

  lemma NewestIsLive(es: seq<Entry>, s: SequenceNumber, i: nat)
    requires Sorted(es) && i < |es| && IsNewest(AsSet(es), es[i].key.user, s, es[i]) && es[i].key.kind.Value?
    ensures Live(es, s, i)
  {
    forall j | 0 <= j < i && es[j].key.user == es[i].key.user ensures !Seen(es, s, j) {
      assert es[j] in AsSet(es);
      assert Before(es[j].key, es[i].key);
    }
  }

  lemma ViewSorted(es: seq<Entry>, s: SequenceNumber, p: nat, q: nat)
    requires Sorted(es) && p < q < |View(es, s)|
    ensures View(es, s)[p].key < View(es, s)[q].key
  {
    var i := ViewFrom(es, s, |es|, p);
    var j := ViewFrom(es, s, |es|, q);
    if j < i { ViewGrows(es, s, j, i); }
    assert i < j;
    assert Before(es[i].key, es[j].key);
  }

  // ----- neighbours among the live entries -----

  /** The first live entry from `i` on, or the end. */
  ghost function NextLive(es: seq<Entry>, s: SequenceNumber, i: nat): (r: nat)
    requires i <= |es|
    ensures i <= r <= |es| && (r < |es| ==> Live(es, s, r)) && forall j :: i <= j < r ==> !Live(es, s, j)
    decreases |es| - i
  {
    if i == |es| || Live(es, s, i) then i else NextLive(es, s, i + 1)
  }

  /** The last live entry before `i`, or the end. */
  ghost function PrevLive(es: seq<Entry>, s: SequenceNumber, i: nat): (r: nat)
    requires i <= |es|
    ensures r < i || r == |es|
    ensures r < i ==> Live(es, s, r)
    ensures forall j :: 0 <= j < i && (r == |es| || r < j) ==> !Live(es, s, j)
  {
    if i == 0 then |es| else if Live(es, s, i - 1) then i - 1 else PrevLive(es, s, i - 1)
  }

  lemma NextLiveIs(es: seq<Entry>, s: SequenceNumber, i: nat, r: nat)
    requires i <= r <= |es| && (r < |es| ==> Live(es, s, r)) && forall j :: i <= j < r ==> !Live(es, s, j)
    ensures NextLive(es, s, i) == r
  {}

  lemma PrevLiveIs(es: seq<Entry>, s: SequenceNumber, i: nat, r: nat)
    requires i <= |es| && (r < i || r == |es|) && (r < i ==> Live(es, s, r))
    requires forall j :: 0 <= j < i && (r == |es| || r < j) ==> !Live(es, s, j)
    ensures PrevLive(es, s, i) == r
  {}

  // ----- scanning forward -----

  predicate Skips(skipping: bool, skip: UserKey, k: UserKey) {
    skipping && k <= skip
  }

  /** Scanning from entry `p` for the first live entry from `from` on:  what the
      scan skips is not wanted, and what it would not skip is not hidden by an
      entry before `p`. */
  ghost predicate Ready(es: seq<Entry>, s: SequenceNumber, p: nat, from: nat, skipping: bool, skip: UserKey) {
    p <= |es| && from <= |es| &&
    (forall j :: p <= j < from ==> Skips(skipping, skip, es[j].key.user) && (Seen(es, s, j) ==> es[j].key.kind.Value?)) &&
    (forall j :: p <= j < |es| && from <= j && Skips(skipping, skip, es[j].key.user) ==> !Live(es, s, j)) &&
    forall i, j :: 0 <= i < p <= j < |es| && Seen(es, s, i) && es[i].key.user == es[j].key.user
      ==> Skips(skipping, skip, es[j].key.user)
  }

  lemma ReadyHit(es: seq<Entry>, s: SequenceNumber, p: nat, from: nat, skipping: bool, skip: UserKey)
    requires Ready(es, s, p, from, skipping, skip) && Seen(es, s, p) && es[p].key.kind.Value?
    requires !Skips(skipping, skip, es[p].key.user)
    ensures from <= p && Live(es, s, p)
  {}

  lemma ReadyPass(es: seq<Entry>, s: SequenceNumber, p: nat, from: nat, skipping: bool, skip: UserKey)
    requires Sorted(es) && p < |es| && Ready(es, s, p, from, skipping, skip)
    requires Seen(es, s, p) ==> Skips(skipping, skip, es[p].key.user)
    ensures Ready(es, s, p + 1, from, skipping, skip) && (from <= p ==> !Live(es, s, p))
  {
    forall j | p < j < |es| && Seen(es, s, p) && es[p].key.user == es[j].key.user
      ensures Skips(skipping, skip, es[j].key.user)
    {}
  }

  lemma ReadyDelete(es: seq<Entry>, s: SequenceNumber, p: nat, from: nat, skipping: bool, skip: UserKey)
    requires Sorted(es) && Ready(es, s, p, from, skipping, skip) && Seen(es, s, p) && es[p].key.kind.Deletion?
    ensures Ready(es, s, p, from, true, es[p].key.user) && (from <= p ==> !Live(es, s, p))
  {
    var k := es[p].key.user;
    assert forall j :: p <= j < |es| && es[j].key.user <= k ==> es[j].key.user == k;
  }

  /** The scan has met nothing live on its way to `p`. */
  ghost predicate Scanning(es: seq<Entry>, s: SequenceNumber, p: nat, from: nat, skipping: bool, skip: UserKey) {
    Ready(es, s, p, from, skipping, skip) && forall j :: from <= j < p ==> !Live(es, s, j)
  }

  lemma ScanDelete(es: seq<Entry>, s: SequenceNumber, p: nat, from: nat, skipping: bool, skip: UserKey)
    requires Sorted(es) && Scanning(es, s, p, from, skipping, skip) && Seen(es, s, p) && es[p].key.kind.Deletion?
    ensures Scanning(es, s, p, from, true, es[p].key.user)
  {
    ReadyDelete(es, s, p, from, skipping, skip);
  }

  lemma ScanPass(es: seq<Entry>, s: SequenceNumber, p: nat, from: nat, skipping: bool, skip: UserKey)
    requires Sorted(es) && p < |es| && Scanning(es, s, p, from, skipping, skip)
    requires Seen(es, s, p) ==> Skips(skipping, skip, es[p].key.user)
    ensures Scanning(es, s, p + 1, from, skipping, skip)
  {
    ReadyPass(es, s, p, from, skipping, skip);
  }

  /** The scan has hit the first live entry at `p`, or goes on there. */
  ghost predicate Scanned(es: seq<Entry>, s: SequenceNumber, p: nat, from: nat, hit: bool, skipping: bool, skip: UserKey) {
    if hit then from <= p && Live(es, s, p) && forall j :: from <= j < p ==> !Live(es, s, j)
    else Scanning(es, s, p, from, skipping, skip)
  }

  lemma ScanEnds(es: seq<Entry>, s: SequenceNumber, p: nat, from: nat, hit: bool, skipping: bool, skip: UserKey)
    requires Scanned(es, s, p, from, hit, skipping, skip) && (hit || p == |es|)
    ensures NextLive(es, s, from) == p && (hit <==> p < |es|) && (hit ==> Live(es, s, p))
  {
    NextLiveIs(es, s, from, p);
  }

  // ----- scanning backward -----

  /** A backward scan from `start` stands at `p` (entries `p` and after are
      read); `best` is the entry it has saved, if any. */
  ghost predicate Backing(es: seq<Entry>, s: SequenceNumber, start: nat, p: nat, best: Option<nat>) {
    p <= start <= |es| &&
    match best
    case None => forall j :: p <= j < start ==> !Live(es, s, j)
    case Some(c) =>
      p <= c < start && Seen(es, s, c) && es[c].key.kind.Value? &&
      (forall j :: p <= j < c ==> !Seen(es, s, j)) &&
      (forall j :: c < j < start ==> !Live(es, s, j))
  }

  lemma BackingStep(es: seq<Entry>, s: SequenceNumber, start: nat, p: nat, best: Option<nat>)
    requires Sorted(es) && 0 < p && Backing(es, s, start, p, best)
    requires best.Some? && Seen(es, s, p - 1) ==> es[p - 1].key.user == es[best.value].key.user
    ensures Backing(es, s, start, p - 1,
                    if !Seen(es, s, p - 1) then best
                    else if es[p - 1].key.kind.Deletion? then None else Some(p - 1))
  {}

  /** The scan stops at the beginning, or at a seen entry of a smaller user key. */
  lemma BackingDone(es: seq<Entry>, s: SequenceNumber, start: nat, p: nat, best: Option<nat>)
    requires Sorted(es) && Backing(es, s, start, p, best)
    requires p == 0 || (best.Some? && es[p - 1].key.user < es[best.value].key.user)
    ensures PrevLive(es, s, start) == if best.Some? then best.value else |es|
  {
    match best {
      case None =>
        PrevLiveIs(es, s, start, |es|);
      case Some(c) =>
        assert forall j :: 0 <= j < p ==> j == p - 1 || Before(es[j].key, es[p - 1].key);
        PrevLiveIs(es, s, start, c);
    }
  }

  // ----- the iterator's moves, on the view -----

  lemma ReadyNext(es: seq<Entry>, s: SequenceNumber, p: nat, was: nat)
    requires Sorted(es) && Live(es, s, was) && p <= was && forall j :: p <= j < was ==> !Seen(es, s, j)
    ensures Ready(es, s, p, was + 1, true, es[was].key.user)
  {
    assert forall j :: 0 <= j <= was ==> es[j].key.user <= es[was].key.user;
    assert forall j :: was < j < |es| && es[j].key.user <= es[was].key.user ==> es[j].key.user == es[was].key.user;
  }

  lemma ReadySeek(es: seq<Entry>, s: SequenceNumber, target: UserKey)
    requires Sorted(es)
    ensures var from := LowerBound(es, SeekKey(target, s)); Ready(es, s, from, from, false, 0.0)
  {
  }

  lemma ViewNext(es: seq<Entry>, s: SequenceNumber, was: nat)
    requires Live(es, s, was)
    ensures |ViewOf(es, s, NextLive(es, s, was + 1))| == |ViewOf(es, s, was)| + 1
  {
    ViewGrows(es, s, was + 1, NextLive(es, s, was + 1));
  }

  lemma ViewPrev(es: seq<Entry>, s: SequenceNumber, was: nat)
    requires was <= |es|
    ensures var n := |ViewOf(es, s, was)|;
            |ViewOf(es, s, PrevLive(es, s, was))| == if n == 0 then |View(es, s)| else n - 1
  {
    var r := PrevLive(es, s, was);
    if r < was {
      ViewGrows(es, s, r + 1, was);
    } else {
      ViewGrows(es, s, 0, was);
    }
  }

  function FirstAtOrAfter(view: seq<Pair>, target: UserKey): (r: nat) {
    if view == [] || target <= view[0].key then 0 else 1 + FirstAtOrAfter(view[1..], target)
  }

  lemma {:induction false} FirstAtOrAfterIs(view: seq<Pair>, target: UserKey, p: nat)
    requires p <= |view| && (p < |view| ==> target <= view[p].key) && forall q :: 0 <= q < p ==> view[q].key < target
    ensures FirstAtOrAfter(view, target) == p
  {
    if p > 0 { FirstAtOrAfterIs(view[1..], target, p - 1); }
  }

  lemma ViewSeek(es: seq<Entry>, s: SequenceNumber, target: UserKey)
    requires Sorted(es)
    ensures |ViewOf(es, s, NextLive(es, s, LowerBound(es, SeekKey(target, s))))| == FirstAtOrAfter(View(es, s), target)
  {
    var i := NextLive(es, s, LowerBound(es, SeekKey(target, s)));
    var p := |ViewOf(es, s, i)|;
    ViewGrows(es, s, i, |es|);
    if p < |View(es, s)| {
      if i == |es| { assert false; }
      ViewAt(es, s, |es|, i);
    }
    forall q | 0 <= q < p ensures View(es, s)[q].key < target {
      var j := ViewFrom(es, s, |es|, q);
      if i <= j { ViewGrows(es, s, i, j); }
      assert j < i && Live(es, s, j);
    }
    FirstAtOrAfterIs(View(es, s), target, p);
  }

  /** Earlier entries of a live entry's user key are not seen. */
  lemma GroupNotLive(es: seq<Entry>, s: SequenceNumber, was: nat, b: nat)
    requires Sorted(es) && Live(es, s, was) && b <= was
    requires b < was ==> es[b].key.user == es[was].key.user
    ensures forall j :: b <= j < was ==> !Seen(es, s, j)
    ensures b == 0 ==> PrevLive(es, s, was) == |es|
  {
    assert forall j :: b < j < was ==> es[b].key.user <= es[j].key.user <= es[was].key.user;
    if b == 0 { PrevLiveIs(es, s, was, |es|); }
  }

  // ----- a cursor over the view -----

  datatype Call = First | Latest | To(target: UserKey) | Forward | Back

  function Moved(view: seq<Pair>, at: nat, call: Call): (r: nat) {
    match call
    case First => 0
    case Latest => if view == [] then 0 else |view| - 1
    case To(target) => FirstAtOrAfter(view, target)
    case Forward => at + 1
    case Back => if at == 0 then |view| else at - 1
  }

  /** Next and Prev may only be called on a valid iterator. */
  predicate Legal(view: seq<Pair>, at: nat, calls: seq<Call>)
    decreases |calls|
  {
    calls == [] ||
    ((calls[0].Forward? || calls[0].Back? ==> at < |view|) && Legal(view, Moved(view, at, calls[0]), calls[1..]))
  }

  function Final(view: seq<Pair>, at: nat, calls: seq<Call>): (r: nat)
    decreases |calls|
  {
    if calls == [] then at else Final(view, Moved(view, at, calls[0]), calls[1..])
  }

  class DBIter {
    const iter: MergingIterator
    const sequence: SequenceNumber
    var savedKey: UserKey
    var savedValue: Bytes
    var forward: bool
    var valid: bool

    /** The live entry shown; the number of entries when there is none. */
    ghost var cur: nat

    ghost function Entries(): (r: seq<Entry>) reads this {
      iter.merged
    }

    /** The number of entries before and at the internal position. */
    ghost function Passed(): (r: nat) reads this, iter, iter.children {
      if iter.at < |iter.merged| then iter.at + 1 else 0
    }

    ghost predicate Good() reads this, iter, iter.children {
      iter.Inv()
    }

    ghost predicate Inv() reads this, iter, iter.children {
      Good() && (if valid then cur < |Entries()| && Live(Entries(), sequence, cur) else cur == |Entries()|) &&
      (valid ==> if forward then iter.at == cur else Reversed())
    }

    /** Moving backward: the internal iterator stands before `cur`, and what lies
        between the snapshot does not see. */
    ghost predicate Reversed() reads this, iter, iter.children {
      cur < |Entries()| && Passed() <= cur && savedKey == Entries()[cur].key.user && savedValue == Entries()[cur].value &&
      forall j :: Passed() <= j < cur ==> !Seen(Entries(), sequence, j)
    }

    /** The position in the snapshot's view. */
    ghost function At(): (r: nat) reads this, iter, iter.children
      requires Inv()
    {
      |ViewOf(Entries(), sequence, cur)|
    }

    constructor (iter: MergingIterator, sequence: SequenceNumber)
      requires iter.Inv() && iter.at == |iter.merged|
      ensures Inv() && !valid && this.iter == iter && this.sequence == sequence
    {
      this.iter, this.sequence := iter, sequence;
      this.savedKey, this.savedValue, this.forward, this.valid, this.cur := 0.0, [], true, false, |iter.merged|;
    }

    /** Looks at the current entry of a forward scan: is it the one, and if not, what
        is to be skipped from here on? */
    method Examine(skipping0: bool, skip0: UserKey, ghost from: nat) returns (hit: bool, skipping: bool, skip: UserKey)
      requires Good() && iter.Valid() && Scanning(Entries(), sequence, iter.at, from, skipping0, skip0)
      ensures Scanned(Entries(), sequence, if hit then iter.at else iter.at + 1, from, hit, skipping, skip)
    {
      hit, skipping, skip := false, skipping0, skip0;
      var key := iter.Key();
      if key.sn <= sequence {
        if key.kind.Deletion? {
          ScanDelete(Entries(), sequence, iter.at, from, skipping, skip);
          skip := key.user;
          skipping := true;
        } else if !(skipping && key.user <= skip) {
          ReadyHit(Entries(), sequence, iter.at, from, skipping, skip);
          return true, skipping, skip;
        }
      }
      ScanPass(Entries(), sequence, iter.at, from, skipping, skip);
    }

    /** Moves to the first live entry from `from` on. */
    method ScanForward(skipping0: bool, skip0: UserKey, ghost from: nat)
      requires Good() && iter.at <= from && Ready(Entries(), sequence, iter.at, from, skipping0, skip0)
      modifies iter, iter.children
      ensures Good() && iter.at == NextLive(Entries(), sequence, from)
    {
      var hit, skipping, skip := false, skipping0, skip0;
      while !hit && iter.Valid()
        invariant Good() && Scanned(Entries(), sequence, iter.at, from, hit, skipping, skip)
        decreases |Entries()| - iter.at, !hit
      {
        hit, skipping, skip := Examine(skipping, skip, from);
        if !hit {
          iter.Next();
        }
      }
      ScanEnds(Entries(), sequence, iter.at, from, hit, skipping, skip);
    }

    method FindNextUserEntry(skipping: bool, skip: UserKey, ghost from: nat)
      requires Good() && iter.Valid() && forward && iter.at <= from
      requires Ready(Entries(), sequence, iter.at, from, skipping, skip)
      modifies this, iter, iter.children
      ensures Inv() && cur == NextLive(Entries(), sequence, from) && (valid ==> forward)
    {
      ScanForward(skipping, skip, from);
      valid, savedKey, cur, forward := iter.Valid(), 0.0, iter.at, true;
    }

    /** Looks at the current entry of a backward scan: the scan stops at another user
        key once it has a candidate. */
    method Take(kind0: Kind, ghost best0: Option<nat>, ghost start: nat) returns (stop: bool, kind: Kind, ghost best: Option<nat>)
      requires Good() && iter.Valid() && Backing(Entries(), sequence, start, Passed(), best0) && Saved(kind0, best0)
      modifies this`savedKey, this`savedValue
      ensures Saved(kind, best)
      ensures if stop then kind == kind0 && best == best0 && Seen(Entries(), sequence, Passed() - 1) && best.Some? &&
                           Entries()[Passed() - 1].key.user < Entries()[best.value].key.user
              else Backing(Entries(), sequence, start, Passed() - 1, best)
    {
      stop, kind, best := false, kind0, best0;
      var key := iter.Key();
      if key.sn <= sequence && kind.Value? && key.user < savedKey {
        return true, kind, best;
      }
      BackingStep(Entries(), sequence, start, Passed(), best);
      if key.sn <= sequence {
        kind := key.kind;
        SaveEntry(key);
        best := if kind.Value? then Some(iter.at) else None;
      }
    }

    method FindPrevUserEntry(ghost start: nat)
      requires Good() && !forward && UnseenTo(start)
      modifies this, iter, iter.children
      ensures Inv() && cur == PrevLive(Entries(), sequence, start)
    {
      var stop, kind := false, Deletion;
      ghost var best: Option<nat> := None;
      while !stop && iter.Valid()
        invariant Good() && !forward
        invariant Backing(Entries(), sequence, start, Passed(), best) && Saved(kind, best)
        invariant stop ==> Passed() > 0 && Seen(Entries(), sequence, Passed() - 1) && best.Some? &&
                           Entries()[Passed() - 1].key.user < Entries()[best.value].key.user
        decreases Passed(), !stop
      {
        stop, kind, best := Take(kind, best, start);
        if !stop {
          iter.Prev();
        }
      }
      BackingDone(Entries(), sequence, start, Passed(), best);
      Finish(kind, best);
    }

    /** The saved pair is that of the candidate. */
    ghost predicate Saved(kind: Kind, best: Option<nat>) reads this {
      (kind.Value? <==> best.Some?) &&
      (best.Some? ==> best.value < |Entries()| && savedKey == Entries()[best.value].key.user
                      && savedValue == Entries()[best.value].value)
    }

    method SaveEntry(key: IKey)
      requires iter.Inv() && iter.Valid() && key == iter.merged[iter.at].key
      modifies this`savedKey, this`savedValue
      ensures Saved(key.kind, if key.kind.Value? then Some(iter.at) else None)
    {
      if key.kind.Deletion? {
        savedKey, savedValue := 0.0, [];
      } else {
        savedValue := iter.Value();
        savedKey := key.user;
      }
    }

    method Finish(kind: Kind, ghost best: Option<nat>)
      requires Good() && !forward && Saved(kind, best)
      requires best.Some? ==> Live(Entries(), sequence, best.value) && Passed() <= best.value
      requires best.Some? ==> forall j :: Passed() <= j < best.value ==> !Seen(Entries(), sequence, j)
      modifies this
      ensures Inv() && cur == if best.Some? then best.value else |Entries()|
    {
      cur := if best.Some? then best.value else |Entries()|;
      if kind.Deletion? {
        valid, savedKey, savedValue, forward := false, 0.0, [], true;
      } else {
        valid := true;
      }
    }

    method Next()
      requires Inv() && valid
      modifies this, iter, iter.children
      ensures Inv() && At() == old(At()) + 1
    {
      ghost var was := cur;
      if !forward {
        TurnForward();
        if !iter.Valid() {
          assert false;
        }
      } else {
        var k0 := iter.Key();
        savedKey := k0.user;
      }
      ScanOn(was);
      ViewNext(Entries(), sequence, was);
    }

    /** Scans for the first live entry past the user key of entry `was`. */
    method ScanOn(ghost was: nat)
      requires Good() && forward && iter.Valid() && iter.at <= was && Live(Entries(), sequence, was)
      requires savedKey == Entries()[was].key.user && forall j :: iter.at <= j < was ==> !Seen(Entries(), sequence, j)
      modifies this, iter, iter.children
      ensures Inv() && cur == NextLive(Entries(), sequence, was + 1)
    {
      ReadyNext(Entries(), sequence, iter.at, was);
      FindNextUserEntry(true, savedKey, was + 1);
    }

    /** The internal iterator stands just before the entries of the current user key. */
    method TurnForward()
      requires Good() && valid && !forward && Reversed()
      modifies this`forward, iter, iter.children
      ensures Good() && forward && iter.at == old(Passed())
    {
      forward := true;
      if !iter.Valid() {
        iter.SeekToFirst();
      } else {
        iter.Next();
      }
    }

    /** Nothing from the internal position up to `start` is seen. */
    ghost predicate UnseenTo(start: nat) reads this, iter, iter.children {
      Passed() <= start <= |Entries()| && forall j :: Passed() <= j < start ==> !Seen(Entries(), sequence, j)
    }

    /** Walks back over the entries of user key `k`, and says whether there is one of
        a smaller key. */
    method BackOverKey(k: UserKey, ghost was: nat) returns (more: bool)
      requires Good() && iter.at == was < |Entries()| && Live(Entries(), sequence, was) && k == Entries()[was].key.user
      modifies iter, iter.children
      ensures Good() && (more ==> UnseenTo(was))
      ensures !more ==> PrevLive(Entries(), sequence, was) == |Entries()|
    {
      more := true;
      while more
        invariant Good() && iter.at <= was && if more then !(Entries()[iter.at].key.user < k)
                                              else iter.at < was && !(Entries()[iter.at + 1].key.user < k)
        decreases iter.at, more
      {
        iter.Prev();
        if !iter.Valid() {
          GroupNotLive(Entries(), sequence, was, 0);
          return false;
        }
        var key := iter.Key();
        more := !(key.user < k);
      }
      GroupNotLive(Entries(), sequence, was, iter.at + 1);
      more := true;
    }

    method Prev()
      requires Inv() && valid
      modifies this, iter, iter.children
      ensures Inv() && At() == if old(At()) == 0 then |View(Entries(), sequence)| else old(At()) - 1
    {
      ghost var was := cur;
      ViewPrev(Entries(), sequence, was);
      if forward {
        var key := iter.Key();
        savedKey := key.user;
        var more := BackOverKey(savedKey, was);
        if !more {
          valid, savedKey, savedValue, cur := false, 0.0, [], |Entries()|;
          return;
        }
        forward := false;
      }
      FindPrevUserEntry(was);
    }

    method Seek(target: UserKey)
      requires Inv()
      modifies this, iter, iter.children
      ensures Inv() && At() == FirstAtOrAfter(View(Entries(), sequence), target)
    {
      forward, savedValue, savedKey := true, [], 0.0;
      iter.Seek(SeekKey(target, sequence));
      ghost var from := iter.at;
      ReadySeek(Entries(), sequence, target);
      if iter.Valid() {
        FindNextUserEntry(false, savedKey, from);
      } else {
        valid, cur := false, |Entries()|;
      }
      ViewSeek(Entries(), sequence, target);
    }

    method SeekToFirst()
      requires Inv()
      modifies this, iter, iter.children
      ensures Inv() && At() == 0
    {
      forward, savedValue := true, [];
      iter.SeekToFirst();
      if iter.Valid() {
        FindNextUserEntry(false, savedKey, 0);
      } else {
        valid, cur := false, |Entries()|;
      }
      ViewGrows(Entries(), sequence, 0, cur);
    }

    method SeekToLast()
      requires Inv()
      modifies this, iter, iter.children
      ensures Inv() && At() == if View(Entries(), sequence) == [] then 0 else |View(Entries(), sequence)| - 1
    {
      forward, savedValue := false, [];
      iter.SeekToLast();
      FindPrevUserEntry(|Entries()|);
      ViewPrev(Entries(), sequence, |Entries()|);
    }

    method Key() returns (k: UserKey)
      requires Inv() && valid
      ensures At() < |View(Entries(), sequence)| && k == View(Entries(), sequence)[At()].key
    {
      ViewAt(Entries(), sequence, |Entries()|, cur);
      if forward { var ik := iter.Key(); k := ik.user; } else { k := savedKey; }
    }

    method Value() returns (value: Bytes)
      requires Inv() && valid
      ensures At() < |View(Entries(), sequence)| && value == View(Entries(), sequence)[At()].value
    {
      ViewAt(Entries(), sequence, |Entries()|, cur);
      if forward { value := iter.Value(); } else { value := savedValue; }
    }

    lemma ValidIsInView()
      requires Inv()
      ensures valid <==> At() < |View(Entries(), sequence)|
      ensures !valid ==> At() == |View(Entries(), sequence)|
    {
      if valid { ViewAt(Entries(), sequence, |Entries()|, cur); }
    }

    /** Any calls a client may make, in any order and with any change of
        direction, leave the iterator where a cursor over the view would be. */
    method Run(calls: seq<Call>)
      requires Inv() && Legal(View(Entries(), sequence), At(), calls)
      modifies this, iter, iter.children
      ensures Inv() && At() == Final(View(Entries(), sequence), old(At()), calls)
      decreases |calls|
    {
      if calls != [] {
        ValidIsInView();
        match calls[0] {
          case First => SeekToFirst();
          case Latest => SeekToLast();
          case To(target) => Seek(target);
          case Forward => Next();
          case Back => Prev();
        }
        Run(calls[1..]);
      }
    }
  }
}
