/** Choosing the files of a compaction (db/version_set.cc). */
module Inputs {
  import opened Keys
  import opened Lookup
  import opened Versions

  /** A range of user keys; None is an open end. */
  datatype Range = Range(lo: Option<UserKey>, hi: Option<UserKey>)

  predicate Overlaps(f: File, r: Range) {
    !(r.lo.Some? && f.largest.user < r.lo.value) && !(r.hi.Some? && f.smallest.user > r.hi.value)
  }

  predicate Within(f: File, r: Range) {
    (r.lo.Some? ==> r.lo.value <= f.smallest.user) && (r.hi.Some? ==> f.largest.user <= r.hi.value)
  }

  /** The files that overlap `r`, in order. */
  function Selected(files: seq<File>, r: Range): (fs: seq<File>)
    ensures forall f :: f in fs <==> f in files && Overlaps(f, r)
  {
    if files == [] then []
    else
      var last := files[|files| - 1];
      assert files == files[..|files| - 1] + [last];
      Selected(files[..|files| - 1], r) + if Overlaps(last, r) then [last] else []
  }

  /** Every file that overlaps `r` lies inside it. */
  ghost predicate Closed(files: seq<File>, r: Range) {
    forall f :: f in files && Overlaps(f, r) ==> Within(f, r)
  }

  predicate Includes(outer: Range, inner: Range) {
    (outer.lo.Some? ==> inner.lo.Some? && outer.lo.value <= inner.lo.value) &&
    (outer.hi.Some? ==> inner.hi.Some? && inner.hi.value <= outer.hi.value)
  }

  /** `r` is the least closed range around `start`: the files that overlap it are
      the transitive closure of "overlaps" from `start`. */
  ghost predicate LeastClosed(files: seq<File>, start: Range, r: Range) {
    Closed(files, r) && Includes(r, start) && ReachesOnlyBy(files, start, r)
  }

  ghost predicate ReachesOnlyBy(files: seq<File>, start: Range, r: Range) {
    forall c :: Closed(files, c) && Includes(c, start) ==> Includes(c, r)
  }

  /** How many file starts lie below the range plus how many file ends lie above it. */
  ghost function Strays(files: seq<File>, r: Range): (result: nat) {
    if files == [] then 0
    else
      Strays(files[1..], r)
      + (if r.lo.Some? && files[0].smallest.user < r.lo.value then 1 else 0)
      + (if r.hi.Some? && files[0].largest.user > r.hi.value then 1 else 0)
  }

  lemma {:induction false} WideningDropsStrays(files: seq<File>, r: Range, w: Range, f: File)
    requires Includes(w, r) && w.lo.Some? == r.lo.Some? && w.hi.Some? == r.hi.Some?
    requires f in files
    requires (r.lo.Some? && w.lo.value <= f.smallest.user < r.lo.value)
             || (r.hi.Some? && r.hi.value < f.largest.user <= w.hi.value)
    ensures Strays(files, w) < Strays(files, r)
  {
    if f in files[1..] {
      WideningDropsStrays(files[1..], r, w, f);
    } else {
      WideningKeepsStrays(files[1..], r, w);
    }
  }

  lemma {:induction false} WideningKeepsStrays(files: seq<File>, r: Range, w: Range)
    requires Includes(w, r) && w.lo.Some? == r.lo.Some? && w.hi.Some? == r.hi.Some?
    ensures Strays(files, w) <= Strays(files, r)
  {
    if files != [] {
      WideningKeepsStrays(files[1..], r, w);
    }
  }

  /** All files of a level that overlap a range.  On level 0 the range grows to
      every file it touches and the scan starts over; `used` is the final range. */
  method GetOverlappingInputs(files: seq<File>, level: nat, range: Range)
    returns (inputs: seq<File>, used: Range)
    requires AllValid(files)
    ensures inputs == Selected(files, used)
    ensures if level == 0 then LeastClosed(files, range, used) else used == range
  {
    inputs, used := [], range;
    var i := 0;
    while i < |files|
      invariant 0 <= i <= |files|
      invariant inputs == Selected(files[..i], used)
      invariant level > 0 ==> used == range
      invariant level == 0 ==> Closed(files[..i], used)
      invariant Includes(used, range) && ReachesOnlyBy(files, range, used)
      decreases Strays(files, used), |files| - i
    {
      var f := files[i];
      assert ValidFile(f) && f in files;
      EntriesLieInRange(f, f.entries[0]);
      assert files[..i + 1][..i] == files[..i];
      i := i + 1;
      if Overlaps(f, used) {
        inputs := inputs + [f];
        if level == 0 && !Within(f, used) {
          var wider := if used.lo.Some? && f.smallest.user < used.lo.value
                       then used.(lo := Some(f.smallest.user))
                       else used.(hi := Some(f.largest.user));
          WideningDropsStrays(files, used, wider, f);
          forall c | Closed(files, c) && Includes(c, range) ensures Includes(c, wider) {
            assert Includes(c, used) && Overlaps(f, c);
          }
          inputs, used, i := [], wider, 0;
        }
      }
    }
    assert files[..|files|] == files;
  }

  // ----- ranges of file sets -----

  /** Stores the smallest and the largest internal key of the inputs. */
  method GetRange(inputs: seq<File>) returns (smallest: IKey, largest: IKey)
    requires inputs != [] && AllValid(inputs)
    ensures forall f :: f in inputs ==> !Less(f.smallest, smallest) && !Less(largest, f.largest)
    ensures exists f :: f in inputs && f.smallest == smallest
    ensures IsLargest(inputs, largest)
  {
    smallest, largest := inputs[0].smallest, inputs[0].largest;
    ghost var first, last := inputs[0], inputs[0];
    for i := 0 to |inputs|
      invariant forall f :: f in inputs[..i] ==> !Less(f.smallest, smallest) && !Less(largest, f.largest)
      invariant first in inputs && first.smallest == smallest
      invariant last in inputs && last.largest == largest
    {
      if Less(inputs[i].smallest, smallest) {
        smallest, first := inputs[i].smallest, inputs[i];
      }
      if Less(largest, inputs[i].largest) {
        largest, last := inputs[i].largest, inputs[i];
      }
    }
    assert inputs[..|inputs|] == inputs;
  }

  ghost predicate IsLargest(files: seq<File>, key: IKey) {
    (exists f :: f in files && f.largest == key) && forall f :: f in files ==> !Less(key, f.largest)
  }

  // ----- boundary files -----

  /** `f` starts after `key` with the same user key. */
  predicate Boundary(f: File, key: IKey) {
    Less(key, f.smallest) && f.smallest.user == key.user
  }

  method FindSmallestBoundaryFile(files: seq<File>, key: IKey) returns (r: Option<File>)
    ensures r.None? <==> forall f :: f in files ==> !Boundary(f, key)
    ensures r.Some? ==> r.value in files && Boundary(r.value, key)
                        && forall f :: f in files && Boundary(f, key) ==> !Less(f.smallest, r.value.smallest)
  {
    r := None;
    for i := 0 to |files|
      invariant r.None? <==> forall f :: f in files[..i] ==> !Boundary(f, key)
      invariant r.Some? ==> r.value in files && Boundary(r.value, key)
                            && forall f :: f in files[..i] && Boundary(f, key) ==> !Less(f.smallest, r.value.smallest)
    {
      if Boundary(files[i], key) && (r.None? || Less(files[i].smallest, r.value.smallest)) {
        r := Some(files[i]);
      }
    }
    assert files[..|files|] == files;
  }

  /** How many files start after `key`. */
  ghost function StartsAfter(files: seq<File>, key: IKey): (r: nat) {
    if files == [] then 0
    else StartsAfter(files[1..], key) + if Less(key, files[0].smallest) then 1 else 0
  }

  lemma {:induction false} AdvancingDropsStarts(files: seq<File>, key: IKey, next: IKey, f: File)
    requires f in files && Less(key, f.smallest) && !Less(next, f.smallest)
    ensures StartsAfter(files, next) < StartsAfter(files, key)
  {
    if f in files[1..] {
      AdvancingDropsStarts(files[1..], key, next, f);
    } else {
      AdvancingKeepsStarts(files[1..], key, next);
    }
  }

  lemma {:induction false} AdvancingKeepsStarts(files: seq<File>, key: IKey, next: IKey)
    requires Less(key, next)
    ensures StartsAfter(files, next) <= StartsAfter(files, key)
  {
    if files != [] {
      AdvancingKeepsStarts(files[1..], key, next);
    }
  }

  /** No file of the level starts after the set's largest key with its user key. */
  ghost predicate NoBoundaryLeft(files: seq<File>, inputs: seq<File>) {
    forall key, f :: IsLargest(inputs, key) && f in files ==> !Boundary(f, key)
  }

  /** No file outside the set lies between two files of the set. */
  ghost predicate Contiguous(files: seq<File>, inputs: seq<File>) {
    (forall f :: f in inputs ==> f in files) &&
    forall i, j, k :: 0 <= i < j < k < |files| && files[i] in inputs && files[k] in inputs ==> files[j] in inputs
  }

  /** File `i` is the first boundary file of those before it. */
  ghost predicate GrowsAt(files: seq<File>, r: seq<File>, i: nat) {
    i < |r| &&
    exists key :: IsLargest(r[..i], key) && Boundary(r[i], key) &&
                  forall g :: g in files && Boundary(g, key) ==> !Less(g.smallest, r[i].smallest)
  }

  /** `r` extends `inputs` by boundary files only, one after the other. */
  ghost predicate GrownFrom(files: seq<File>, inputs: seq<File>, r: seq<File>) {
    inputs <= r && forall i :: |inputs| <= i < |r| ==> GrowsAt(files, r, i)
  }

  lemma GrowsOn(files: seq<File>, inputs: seq<File>, r: seq<File>, key: IKey, f: File)
    requires GrownFrom(files, inputs, r) && IsLargest(r, key) && Boundary(f, key)
    requires forall g :: g in files && Boundary(g, key) ==> !Less(g.smallest, f.smallest)
    ensures GrownFrom(files, inputs, r + [f])
  {
    forall i: nat | |inputs| <= i < |r + [f]| ensures GrowsAt(files, r + [f], i) {
      if i < |r| {
        assert GrowsAt(files, r, i) && (r + [f])[..i] == r[..i];
      } else {
        assert (r + [f])[..i] == r && (r + [f])[i] == f;
      }
    }
  }

  ghost predicate BoundaryExtension(files: seq<File>, inputs: seq<File>, r: seq<File>) {
    inputs <= r && (forall f :: f in r ==> f in files) && GrownFrom(files, inputs, r) &&
    (DisjointSorted(files) && Contiguous(files, inputs) ==> Contiguous(files, r)) &&
    (NoBoundaryLeft(files, inputs) ==> r == inputs)
  }

  lemma BoundaryStep(files: seq<File>, inputs: seq<File>, r: seq<File>, largest: IKey, f: File)
    requires AllValid(files) && BoundaryExtension(files, inputs, r) && IsLargest(r, largest)
    requires f in files && Boundary(f, largest)
    requires forall g :: g in files && Boundary(g, largest) ==> !Less(g.smallest, f.smallest)
    ensures BoundaryExtension(files, inputs, r + [f]) && IsLargest(r + [f], f.largest)
    ensures StartsAfter(files, f.largest) < StartsAfter(files, largest)
  {
    LargestMoves(files, r, largest, f);
    GrowsOn(files, inputs, r, largest, f);
    AdvancingDropsStarts(files, largest, f.largest, f);
    if DisjointSorted(files) && Contiguous(files, inputs) {
      BoundaryKeepsContiguous(files, r, largest, f);
    }
  }

  /** Pulls in, one after the other, the files that continue the user key the set
      ends in. */
  method AddBoundaryInputs(files: seq<File>, inputs: seq<File>) returns (r: seq<File>)
    requires AllValid(files) && (forall f :: f in inputs ==> f in files)
    ensures inputs <= r && (forall f :: f in r ==> f in files)
    ensures NoBoundaryLeft(files, r) && GrownFrom(files, inputs, r)
    ensures DisjointSorted(files) && Contiguous(files, inputs) ==> Contiguous(files, r)
    ensures NoBoundaryLeft(files, inputs) ==> r == inputs
  {
    r := inputs;
    if inputs == [] {
      return;
    }
    forall i | 0 <= i < |inputs| ensures ValidFile(inputs[i]) { assert inputs[i] in files; }
    var _, largest := GetRange(inputs);
    var continueSearching := true;
    while continueSearching
      invariant BoundaryExtension(files, inputs, r) && IsLargest(r, largest)
      invariant !continueSearching ==> forall f :: f in files ==> !Boundary(f, largest)
      decreases continueSearching, StartsAfter(files, largest)
    {
      var b := FindSmallestBoundaryFile(files, largest);
      if b.Some? {
        BoundaryStep(files, inputs, r, largest, b.value);
        r, largest := r + [b.value], b.value.largest;
      } else {
        continueSearching := false;
      }
    }
    LargestIsUnique(files, r, largest);
  }

  lemma LargestIsUnique(files: seq<File>, inputs: seq<File>, largest: IKey)
    requires IsLargest(inputs, largest) && forall f :: f in files ==> !Boundary(f, largest)
    ensures NoBoundaryLeft(files, inputs)
  {
    forall key | IsLargest(inputs, key) ensures key == largest {
      var f :| f in inputs && f.largest == key;
      var g :| g in inputs && g.largest == largest;
    }
  }

  lemma LargestMoves(files: seq<File>, inputs: seq<File>, largest: IKey, f: File)
    requires AllValid(files) && IsLargest(inputs, largest) && f in files && Boundary(f, largest)
    ensures Less(largest, f.largest) && IsLargest(inputs + [f], f.largest)
  {
    EntriesLieInRange(f, f.entries[0]);
    assert f in inputs + [f];
    forall g | g in inputs + [f] ensures !Less(f.largest, g.largest) {
      if g in inputs { assert !Less(largest, g.largest); }
    }
  }

  /** In a sorted disjoint level the smallest boundary file follows the last input. */
  lemma BoundaryIsNext(files: seq<File>, inputs: seq<File>, largest: IKey, f: File) returns (p: nat)
    requires AllValid(files) && DisjointSorted(files) && (forall g :: g in inputs ==> g in files)
    requires IsLargest(inputs, largest) && f in files && Boundary(f, largest)
    requires forall g :: g in files && Boundary(g, largest) ==> !Less(g.smallest, f.smallest)
    ensures p + 1 < |files| && files[p] in inputs && files[p + 1] == f
    ensures forall k :: p < k < |files| ==> files[k] !in inputs
  {
    var top :| top in inputs && top.largest == largest;
    p :| 0 <= p < |files| && files[p] == top;
    forall k | p < k < |files| ensures files[k] !in inputs {
      BoundsOrder(files, p, k);
    }
    var q :| 0 <= q < |files| && files[q] == f;
    EntriesLieInRange(f, f.entries[0]);
    if q < p { BoundsOrder(files, q, p); }
    BetweenIsBoundary(files, p, q);
  }

  lemma BetweenIsBoundary(files: seq<File>, p: nat, q: nat)
    requires AllValid(files) && DisjointSorted(files) && p < q < |files|
    requires Boundary(files[q], files[p].largest)
    ensures p + 1 < q ==> exists g :: g in files && Boundary(g, files[p].largest) && Less(g.smallest, files[q].smallest)
  {
    if p + 1 < q {
      BoundsOrder(files, p + 1, q);
      assert files[p + 1] in files && Boundary(files[p + 1], files[p].largest);
    }
  }

  lemma BoundaryKeepsContiguous(files: seq<File>, inputs: seq<File>, largest: IKey, f: File)
    requires AllValid(files) && DisjointSorted(files) && Contiguous(files, inputs)
    requires IsLargest(inputs, largest) && f in files && Boundary(f, largest)
    requires forall g :: g in files && Boundary(g, largest) ==> !Less(g.smallest, f.smallest)
    ensures Contiguous(files, inputs + [f])
  {
    var p := BoundaryIsNext(files, inputs, largest, f);
    forall i, j, k | 0 <= i < j < k < |files| && files[i] in inputs + [f] && files[k] in inputs + [f]
      ensures files[j] in inputs + [f]
    {
      if i < p + 1 { BoundsOrder(files, i, p + 1); }
      assert files[i] in inputs;
    }
  }

  // ----- the whole input choice -----

  function TotalFileSize(files: seq<File>): (r: nat) {
    if files == [] then 0 else files[0].size + TotalFileSize(files[1..])
  }

  /** Entries left behind in the level are newer than the inputs' entries of the
      same user key. */
  ghost predicate NoOlderLeft(files: seq<File>, inputs: seq<File>) {
    forall f, g :: f in inputs && g in files && g !in inputs ==> Newer(g, f)
  }

  /** What PickCompaction and CompactRange hand to SetupOtherInputs. */
  ghost predicate Picked(files: seq<File>, level: nat, inputs: seq<File>) {
    inputs != [] &&
    if level == 0 then exists r :: Closed(files, r) && inputs == Selected(files, r)
    else Contiguous(files, inputs)
  }

  function UserRange(smallest: IKey, largest: IKey): (r: Range) {
    Range(Some(smallest.user), Some(largest.user))
  }

  /** `r` is the range of user keys that the files span. */
  ghost predicate Spans(files: seq<File>, r: Range) {
    r.lo.Some? && r.hi.Some? && (forall f :: f in files ==> Within(f, r)) &&
    (exists f :: f in files && f.smallest.user == r.lo.value) && exists f :: f in files && f.largest.user == r.hi.value
  }

  ghost predicate CoveredBy(inputs: seq<File>, parents: seq<File>, inputs1: seq<File>, r: Range) {
    Spans(inputs, r) && inputs1 == Selected(parents, r)
  }

  ghost predicate IsParentChoice(inputs: seq<File>, parents: seq<File>, inputs1: seq<File>) {
    exists r :: CoveredBy(inputs, parents, inputs1, r)
  }

  /** The input sets of a compaction of `level`: nothing older stays behind in the
      level, and the parent level gives every file that meets the range they span. */
  ghost predicate Chosen(v: Version, level: nat, inputs0: seq<File>, inputs1: seq<File>) {
    |v.files| == NUM_LEVELS && level + 1 < NUM_LEVELS &&
    inputs0 != [] && (forall f :: f in inputs0 ==> f in v.files[level]) &&
    NoOlderLeft(v.files[level], inputs0) &&
    IsParentChoice(inputs0, v.files[level + 1], inputs1)
  }

  lemma SelectedIsContiguous(files: seq<File>, r: Range)
    requires AllValid(files) && DisjointSorted(files)
    ensures Contiguous(files, Selected(files, r))
  {
    forall i, j, k | 0 <= i < j < k < |files| && files[i] in Selected(files, r) && files[k] in Selected(files, r)
      ensures files[j] in Selected(files, r)
    {
      BoundsOrder(files, i, j);
      BoundsOrder(files, j, k);
    }
  }

  lemma {:induction false} SelectedIsSorted(files: seq<File>, r: Range)
    requires DisjointSorted(files)
    ensures DisjointSorted(Selected(files, r))
  {
    if files != [] {
      var front := files[..|files| - 1];
      SelectedIsSorted(front, r);
      forall f | f in Selected(front, r) ensures Before(f.largest, files[|files| - 1].smallest) {
        assert f in front;
      }
      var s := Selected(front, r);
      assert forall i :: 0 <= i < |s| ==> s[i] in s;
    }
  }

  lemma PrefixIsContiguous(files: seq<File>, r: Range, n: nat)
    requires AllValid(files) && DisjointSorted(files) && n <= |Selected(files, r)|
    ensures Contiguous(files, Selected(files, r)[..n])
  {
    var s := Selected(files, r);
    SelectedIsSorted(files, r);
    SelectedIsContiguous(files, r);
    forall i, j, k | 0 <= i < j < k < |files| && files[i] in s[..n] && files[k] in s[..n]
      ensures files[j] in s[..n]
    {
      var b :| 0 <= b < n && s[b] == files[k];
      assert files[i] in s && files[k] in s;
      EarlierStaysInPrefix(s, n, b, files[j]);
    }
  }

  /** What is before a file of the prefix is in the prefix. */
  lemma EarlierStaysInPrefix(s: seq<File>, n: nat, b: nat, f: File)
    requires DisjointSorted(s) && b < n <= |s| && f in s && ValidFile(f) && ValidFile(s[b])
    requires Before(f.largest, s[b].smallest)
    ensures f in s[..n]
  {
    var a :| 0 <= a < |s| && s[a] == f;
    EntriesLieInRange(f, f.entries[0]);
    EntriesLieInRange(s[b], s[b].entries[0]);
    assert a <= b;
    assert s[..n][a] == f;
  }

  lemma ClosedHasNoBoundary(files: seq<File>, r: Range)
    requires AllValid(files) && Closed(files, r)
    ensures NoBoundaryLeft(files, Selected(files, r)) && NoOlderLeft(files, Selected(files, r))
  {
    var s := Selected(files, r);
    forall key, f | IsLargest(s, key) && f in files ensures !Boundary(f, key) {
      var top :| top in s && top.largest == key;
      EntriesLieInRange(f, f.entries[0]);
      EntriesLieInRange(top, top.entries[0]);
    }
    forall f, g | f in s && g in files && g !in s ensures Newer(g, f) {
      forall e, d | e in g.entries && d in f.entries ensures e.key.user != d.key.user {
        EntriesLieInRange(g, e);
        EntriesLieInRange(f, d);
      }
    }
  }

  lemma BoundaryFreeLeavesNoOlder(files: seq<File>, inputs: seq<File>)
    requires AllValid(files) && DisjointSorted(files)
    requires Contiguous(files, inputs) && NoBoundaryLeft(files, inputs)
    ensures NoOlderLeft(files, inputs)
  {
    forall f, g, e, d | f in inputs && g in files && g !in inputs && e in g.entries && d in f.entries
                        && e.key.user == d.key.user
      ensures e.key.sn > d.key.sn
    {
      var i :| 0 <= i < |files| && files[i] == f;
      var j :| 0 <= j < |files| && files[j] == g;
      if j < i {
        LevelOrder(files, j, i, e, d);
      } else {
        LargestBelow(files, inputs, j);
        EntriesLieInRange(f, d);
        EntriesLieInRange(g, e);
      }
    }
  }

  /** A file after some input of a contiguous boundary-free set is after all of
      them, and in later user keys. */
  lemma LargestBelow(files: seq<File>, inputs: seq<File>, j: nat)
    requires AllValid(files) && DisjointSorted(files)
    requires Contiguous(files, inputs) && NoBoundaryLeft(files, inputs)
    requires j < |files| && files[j] !in inputs
    requires exists i :: 0 <= i < j && files[i] in inputs
    ensures forall f :: f in inputs ==> f.largest.user < files[j].smallest.user
  {
    forall f | f in inputs ensures f.largest.user < files[j].smallest.user {
      var largest := LargestOf(inputs);
      var top :| top in inputs && top.largest == largest;
      LastIsBefore(files, inputs, top, j);
      assert !Boundary(files[j], largest);
    }
  }

  lemma LastIsBefore(files: seq<File>, inputs: seq<File>, top: File, j: nat)
    requires DisjointSorted(files) && Contiguous(files, inputs) && top in inputs
    requires j < |files| && files[j] !in inputs && exists i :: 0 <= i < j && files[i] in inputs
    ensures Before(top.largest, files[j].smallest)
  {
    var i :| 0 <= i < j && files[i] in inputs;
    var p :| 0 <= p < |files| && files[p] == top;
    assert p < j;
  }

  lemma LargestOf(inputs: seq<File>) returns (key: IKey)
    requires inputs != []
    ensures IsLargest(inputs, key)
  {
    key := inputs[0].largest;
    for i := 0 to |inputs|
      invariant forall f :: f in inputs[..i] ==> !Less(key, f.largest)
      invariant exists f :: f in inputs && f.largest == key
    {
      if Less(key, inputs[i].largest) { key := inputs[i].largest; assert inputs[i] in inputs; }
    }
    assert inputs[..|inputs|] == inputs;
  }

  /** Extends picked inputs by boundary files: nothing older stays behind. */
  method CloseInputs(files: seq<File>, level: nat, inputs: seq<File>) returns (r: seq<File>)
    requires AllValid(files) && (level > 0 ==> DisjointSorted(files))
    requires Picked(files, level, inputs)
    ensures inputs <= r && (forall f :: f in r ==> f in files)
    ensures NoOlderLeft(files, r) && GrownFrom(files, inputs, r)
    ensures level > 0 ==> Contiguous(files, r)
  {
    ghost var range: Range := Range(None, None);
    if level == 0 {
      range :| Closed(files, range) && inputs == Selected(files, range);
      ClosedHasNoBoundary(files, range);
    }
    r := AddBoundaryInputs(files, inputs);
    if level > 0 {
      BoundaryFreeLeavesNoOlder(files, r);
    }
  }

  /** Tries to grow the inputs of the level without changing how many parent files
      are picked up. */
  method ExpandInputs(v: Version, level: nat, inputs0: seq<File>, inputs1: seq<File>, byteLimit: nat)
    returns (expanded0: seq<File>, expanded1: seq<File>)
    requires ValidVersion(v) && Chosen(v, level, inputs0, inputs1)
    ensures Chosen(v, level, expanded0, expanded1)
    ensures forall f :: f in inputs0 ==> f in expanded0
    ensures (expanded0 == inputs0 && expanded1 == inputs1) ||
            (|expanded0| > |inputs0| && |expanded1| == |inputs1| && TotalFileSize(inputs1) + TotalFileSize(expanded0) < byteLimit)
  {
    var files, parents := v.files[level], v.files[level + 1];
    var overlapping := OverlappingAll(files, parents, level, inputs0, inputs1);
    assert inputs0[0] in overlapping;
    expanded0 := CloseInputs(files, level, overlapping);
    forall f | f in inputs0 ensures f in expanded0 {
      assert f in overlapping;
    }
    if |expanded0| > |inputs0| && TotalFileSize(inputs1) + TotalFileSize(expanded0) < byteLimit {
      expanded1 := ParentInputs(files, parents, level, expanded0);
      if |expanded1| == |inputs1| {
        return;
      }
    }
    expanded0, expanded1 := inputs0, inputs1;
  }

  /** The files of the level that overlap the range of all inputs so far. */
  method OverlappingAll(files: seq<File>, parents: seq<File>, level: nat, inputs0: seq<File>, inputs1: seq<File>)
    returns (overlapping: seq<File>)
    requires AllValid(files) && AllValid(parents) && (level > 0 ==> DisjointSorted(files))
    requires inputs0 != [] && (forall f :: f in inputs0 ==> f in files) && forall f :: f in inputs1 ==> f in parents
    ensures Picked(files, level, overlapping)
    ensures forall f :: f in inputs0 ==> f in overlapping
  {
    var all := inputs0 + inputs1;
    forall i | 0 <= i < |all| ensures ValidFile(all[i]) { assert all[i] in files || all[i] in parents; }
    var allStart, allLimit := GetRange(all);
    var range := UserRange(allStart, allLimit);
    var used;
    overlapping, used := GetOverlappingInputs(files, level, range);
    forall f | f in inputs0 ensures f in overlapping {
      assert f in all && Within(f, range) && f in files;
      EntriesLieInRange(f, f.entries[0]);
    }
    assert inputs0[0] in overlapping;
    if level > 0 { SelectedIsContiguous(files, used); }
  }

  method SetupOtherInputs(v: Version, level: nat, picked: seq<File>, byteLimit: nat)
    returns (inputs0: seq<File>, inputs1: seq<File>)
    requires ValidVersion(v) && level + 1 < NUM_LEVELS && Picked(v.files[level], level, picked)
    ensures Chosen(v, level, inputs0, inputs1)
    ensures forall f :: f in picked ==> f in inputs0
    ensures GrownFrom(v.files[level], picked, inputs0) || (inputs1 != [] && TotalFileSize(inputs0) < byteLimit)
  {
    inputs0 := CloseInputs(v.files[level], level, picked);
    inputs1 := ParentInputs(v.files[level], v.files[level + 1], level, inputs0);
    if inputs1 != [] {
      inputs0, inputs1 := ExpandInputs(v, level, inputs0, inputs1, byteLimit);
    }
  }

  /** The files of the parent level that overlap the user-key range of the inputs. */
  method ParentInputs(files: seq<File>, parents: seq<File>, level: nat, inputs0: seq<File>) returns (inputs1: seq<File>)
    requires AllValid(files) && AllValid(parents)
    requires inputs0 != [] && forall f :: f in inputs0 ==> f in files
    ensures IsParentChoice(inputs0, parents, inputs1)
  {
    forall i | 0 <= i < |inputs0| ensures ValidFile(inputs0[i]) { assert inputs0[i] in files; }
    var smallest, largest := GetRange(inputs0);
    var used;
    inputs1, used := GetOverlappingInputs(parents, level + 1, UserRange(smallest, largest));
    assert CoveredBy(inputs0, parents, inputs1, used);
  }

  /** PickCompaction, once a file of the level has been picked. */
  method PickCompaction(v: Version, level: nat, file: File, byteLimit: nat)
    returns (inputs0: seq<File>, inputs1: seq<File>)
    requires ValidVersion(v) && level + 1 < NUM_LEVELS && file in v.files[level]
    ensures Chosen(v, level, inputs0, inputs1) && file in inputs0
    ensures level > 0 ==> GrownFrom(v.files[level], [file], inputs0) || (inputs1 != [] && TotalFileSize(inputs0) < byteLimit)
  {
    var picked := [file];
    var files := v.files[level];
    assert ValidFile(file);
    if level == 0 {
      var smallest, largest := GetRange(picked);
      var used;
      picked, used := GetOverlappingInputs(files, 0, UserRange(smallest, largest));
      EntriesLieInRange(file, file.entries[0]);
      assert file in picked;
    } else {
      forall i, k | 0 <= i < k < |files| ensures files[i] != files[k] {
        BoundsOrder(files, i, k);
      }
    }
    inputs0, inputs1 := SetupOtherInputs(v, level, picked, byteLimit);
  }

  /** The first `n` of the files are taken: as many as it needs to reach the limit. */
  ghost predicate Reaches(files: seq<File>, n: nat, limit: nat, taken: seq<File>) {
    0 < n <= |files| && (forall f :: f in files[..n] ==> f in taken) &&
    (n > 1 ==> TotalFileSize(files[..n - 1]) < limit) && (n < |files| ==> TotalFileSize(files[..n]) >= limit)
  }

  lemma {:induction false} SizeConcat(a: seq<File>, b: seq<File>)
    ensures TotalFileSize(a + b) == TotalFileSize(a) + TotalFileSize(b)
  {
    if a == [] {
      assert a + b == b;
    } else {
      assert (a + b)[1..] == a[1..] + b;
      SizeConcat(a[1..], b);
    }
  }

  lemma SizeSnoc(files: seq<File>, i: nat)
    requires i < |files|
    ensures TotalFileSize(files[..i + 1]) == TotalFileSize(files[..i]) + files[i].size
  {
    assert files[..i + 1] == files[..i] + [files[i]];
    SizeConcat(files[..i], [files[i]]);
  }

  lemma SizeRises(files: seq<File>, n: nat)
    requires n <= |files|
    ensures n > 0 ==> TotalFileSize(files[..n - 1]) <= TotalFileSize(files[..n])
  {
    if n > 0 { SizeSnoc(files, n - 1); }
  }

  /** CompactRange of one level: on deeper levels only a prefix of the overlapping
      files, up to the size limit, is compacted at once. */
  method CompactRange(v: Version, level: nat, range: Range, fileLimit: nat, byteLimit: nat)
    returns (inputs0: seq<File>, inputs1: seq<File>)
    requires ValidVersion(v) && level + 1 < NUM_LEVELS
    ensures inputs0 == [] ==> forall f :: f in v.files[level] ==> !Overlaps(f, range)
    ensures inputs0 != [] ==> Chosen(v, level, inputs0, inputs1)
    ensures level == 0 ==> forall f :: f in v.files[level] && Overlaps(f, range) ==> f in inputs0
    ensures inputs0 != [] && level > 0 ==> exists n :: Reaches(Selected(v.files[level], range), n, fileLimit, inputs0)
  {
    var files := v.files[level];
    var inputs, used := GetOverlappingInputs(files, level, range);
    if inputs == [] {
      forall f | f in files ensures !Overlaps(f, range) {
        assert f !in Selected(files, used);
      }
      return [], [];
    }
    if level > 0 {
      SelectedIsContiguous(files, used);
      ghost var all := inputs;
      var total, i := 0, 0;
      while i < |inputs|
        invariant i <= |inputs| && inputs == Selected(files, used)
        invariant total == TotalFileSize(inputs[..i]) && (i > 0 ==> total < fileLimit)
      {
        SizeSnoc(inputs, i);
        total := total + inputs[i].size;
        if total >= fileLimit {
          break;
        }
        i := i + 1;
      }
      ghost var n := if i < |inputs| then i + 1 else |inputs|;
      if i < |inputs| {
        PrefixIsContiguous(files, used, i + 1);
        inputs := inputs[..i + 1];
      }
      SizeRises(all, n);
      inputs0, inputs1 := SetupOtherInputs(v, level, inputs, byteLimit);
      assert Reaches(all, n, fileLimit, inputs0);
      return;
    }
    inputs0, inputs1 := SetupOtherInputs(v, level, inputs, byteLimit);
  }
}
