/** Installing new versions: what a flush or a compaction makes of the levels
    (db/version_set.cc: Builder, PickLevelForMemTableOutput; db/db_impl.cc). */
module Install {
  import opened Keys
  import opened Lookup
  import opened Versions
  import opened Inputs

  const MAX_MEM_COMPACT_LEVEL := 2

  /** The order of files inside a level. */
  predicate BySmallestKey(a: File, b: File) {
    Less(a.smallest, b.smallest) || (!Less(b.smallest, a.smallest) && a.number < b.number)
  }

  ghost predicate SortedLevel(files: seq<File>) {
    forall i, j :: 0 <= i < j < |files| ==> BySmallestKey(files[i], files[j])
  }

  /** Files are in the order of their smallest keys, those of equal keys in the order
      of their numbers. */
  lemma SortedMeans(files: seq<File>)
    ensures SortedLevel(files) <==>
            forall i, j :: 0 <= i < j < |files| ==>
              Less(files[i].smallest, files[j].smallest) || (files[i].smallest == files[j].smallest && files[i].number < files[j].number)
  {
    forall i, j | 0 <= i < j < |files|
      ensures BySmallestKey(files[i], files[j]) <==>
              Less(files[i].smallest, files[j].smallest) || (files[i].smallest == files[j].smallest && files[i].number < files[j].number)
    {}
  }

  /** `after` is level `before` without `deleted`, with `added`, in order. */
  ghost predicate LevelEdited(before: seq<File>, deleted: seq<File>, added: seq<File>, after: seq<File>) {
    SortedLevel(after) && forall f :: f in after <==> (f in before && f !in deleted) || f in added
  }

  /** Pairwise disjoint files in the order of their smallest keys are disjoint and sorted. */
  lemma DisjointFromPairs(files: seq<File>)
    requires AllValid(files) && SortedLevel(files)
    requires forall f, g :: f in files && g in files && f != g ==>
               Before(f.largest, g.smallest) || Before(g.largest, f.smallest)
    ensures DisjointSorted(files)
  {
    forall i, j | 0 <= i < j < |files| ensures Before(files[i].largest, files[j].smallest) {
      assert files[i] in files && files[j] in files && BySmallestKey(files[i], files[j]);
      EntriesLieInRange(files[i], files[i].entries[0]);
      EntriesLieInRange(files[j], files[j].entries[0]);
    }
  }

  // ----- flushing a memtable -----

  /** Checks a level against a user-key range: all files of level 0, a binary
      search on the others. */
  method SomeFileOverlapsRange(files: seq<File>, disjointSorted: bool, range: Range) returns (b: bool)
    requires AllValid(files) && (disjointSorted ==> DisjointSorted(files))
    requires range.lo.Some? && range.hi.Some? ==> range.lo.value <= range.hi.value
    ensures b <==> exists f :: f in files && Overlaps(f, range)
  {
    if !disjointSorted {
      for i := 0 to |files|
        invariant forall f :: f in files[..i] ==> !Overlaps(f, range)
      {
        if Overlaps(files[i], range) {
          return true;
        }
      }
      assert files[..|files|] == files;
      return false;
    }
    var index := 0;
    if range.lo.Some? {
      index := FindFile(files, SeekKey(range.lo.value, MAX_SEQUENCE));
    }
    if index >= |files| {
      return false;
    }
    b := !(range.hi.Some? && range.hi.value < files[index].smallest.user);
    if b {
      assert files[index] in files && Overlaps(files[index], range);
    } else {
      forall f | f in files ensures !Overlaps(f, range) {
        var i :| 0 <= i < |files| && files[i] == f;
        if index < i { BoundsOrder(files, index, i); }
      }
    }
  }

  ghost predicate Reached(files: seq<File>, range: Range) {
    exists f :: f in files && Overlaps(f, range)
  }

  /** A table may go from level `l` to the next: it overlaps nothing there, and not
      too many bytes of the level after that. */
  ghost predicate MayDescend(v: Version, l: nat, range: Range, grandparentLimit: nat)
    requires |v.files| == NUM_LEVELS && l + 1 < NUM_LEVELS
  {
    !Reached(v.files[l + 1], range) &&
    (l + 2 < NUM_LEVELS ==> TotalFileSize(Selected(v.files[l + 2], range)) <= grandparentLimit)
  }

  /** The table goes down as far as it may, two levels at most. */
  method PickLevelForMemTableOutput(v: Version, smallest: UserKey, largest: UserKey, grandparentLimit: nat)
    returns (level: nat)
    requires ValidVersion(v) && smallest <= largest
    ensures level <= MAX_MEM_COMPACT_LEVEL
    ensures level > 0 ==> forall l, f :: 0 <= l <= level && f in v.files[l] ==>
                            !Overlaps(f, Range(Some(smallest), Some(largest)))
    ensures var range := Range(Some(smallest), Some(largest));
            if Reached(v.files[0], range) then level == 0
            else (forall l :: 0 <= l < level ==> MayDescend(v, l, range, grandparentLimit)) &&
                 (level < MAX_MEM_COMPACT_LEVEL ==> !MayDescend(v, level, range, grandparentLimit))
  {
    var range := Range(Some(smallest), Some(largest));
    level := 0;
    var overlap := SomeFileOverlapsRange(v.files[0], false, range);
    if !overlap {
      while level < MAX_MEM_COMPACT_LEVEL
        invariant level <= MAX_MEM_COMPACT_LEVEL
        invariant forall l, f :: 0 <= l <= level && f in v.files[l] ==> !Overlaps(f, range)
        invariant forall l :: 0 <= l < level ==> MayDescend(v, l, range, grandparentLimit)
      {
        overlap := SomeFileOverlapsRange(v.files[level + 1], true, range);
        if overlap {
          break;
        }
        if level + 2 < NUM_LEVELS {
          var overlaps, _ := GetOverlappingInputs(v.files[level + 2], level + 2, range);
          if TotalFileSize(overlaps) > grandparentLimit {
            break;
          }
        }
        level := level + 1;
      }
    }
  }

  /** `w` is `v` with the flushed table `f` added at `level`. */
  ghost predicate Flushed(v: Version, f: File, level: nat, w: Version) {
    |v.files| == NUM_LEVELS && |w.files| == NUM_LEVELS && level < NUM_LEVELS &&
    LevelEdited(v.files[level], [], [f], w.files[level]) &&
    forall l :: 0 <= l < NUM_LEVELS && l != level ==> w.files[l] == v.files[l]
  }

  lemma ApartIsNewer(f: File, g: File)
    requires ValidFile(f) && ValidFile(g) && !Overlaps(g, UserRange(f.smallest, f.largest))
    ensures Newer(f, g) && Newer(g, f)
  {
    forall e, d | e in g.entries && d in f.entries ensures e.key.user != d.key.user {
      EntriesLieInRange(g, e);
      EntriesLieInRange(f, d);
    }
  }

  /** Where a flush may put its table: newer than all there is, below only levels
      it does not overlap. */
  ghost predicate FlushPlacement(v: Version, f: File, level: nat) {
    ValidVersion(v) && ValidFile(f) && level < NUM_LEVELS &&
    (forall l, g :: 0 <= l < NUM_LEVELS && g in v.files[l] ==> Newer(f, g)) &&
    (forall g :: g in v.files[0] ==> g.number < f.number) &&
    (level > 0 ==> forall l, g :: 0 <= l <= level && g in v.files[l] ==>
                     !Overlaps(g, UserRange(f.smallest, f.largest)))
  }

  lemma FlushKeepsDisjoint(v: Version, f: File, level: nat, files: seq<File>)
    requires FlushPlacement(v, f, level) && level > 0 && LevelEdited(v.files[level], [], [f], files)
    ensures AllValid(files) && DisjointSorted(files)
  {
    var old' := v.files[level];
    forall i | 0 <= i < |files| ensures ValidFile(files[i]) {
      assert files[i] in files;
    }
    forall g, h | g in files && h in files && g != h
      ensures Before(g.largest, h.smallest) || Before(h.largest, g.smallest)
    {
      if g == f {
        assert h in old' && !Overlaps(h, UserRange(f.smallest, f.largest));
      } else if h == f {
        assert g in old' && !Overlaps(g, UserRange(f.smallest, f.largest));
      } else {
        var i :| 0 <= i < |old'| && old'[i] == g;
        var j :| 0 <= j < |old'| && old'[j] == h;
        assert i < j || j < i;
      }
    }
    DisjointFromPairs(files);
  }

  lemma FlushKeepsNumbers(v: Version, f: File, files: seq<File>)
    requires FlushPlacement(v, f, 0) && LevelEdited(v.files[0], [], [f], files)
    ensures AllValid(files) && NewerByNumber(files)
  {
    forall i | 0 <= i < |files| ensures ValidFile(files[i]) {
      assert files[i] in files;
    }
  }

  lemma FlushKeepsOrder(v: Version, f: File, level: nat, w: Version)
    requires FlushPlacement(v, f, level) && Flushed(v, f, level, w)
    ensures NewerAbove(w)
  {
    forall i, j, g, h | 0 <= i < j < NUM_LEVELS && g in w.files[i] && h in w.files[j] ensures Newer(g, h) {
      if h == f && j == level {
        assert g in v.files[i];
        ApartIsNewer(f, g);
      } else {
        assert h in v.files[j];
      }
    }
  }

  /** A flush placed by PickLevelForMemTableOutput keeps the version invariant and
      adds exactly the memtable's entries. */
  lemma FlushKeepsVersion(v: Version, f: File, level: nat, w: Version)
    requires FlushPlacement(v, f, level) && Flushed(v, f, level, w)
    ensures ValidVersion(w)
    ensures VersionEntries(w) == VersionEntries(v) + set e | e in f.entries
  {
    if level > 0 {
      FlushKeepsDisjoint(v, f, level, w.files[level]);
    } else {
      FlushKeepsNumbers(v, f, w.files[0]);
    }
    FlushKeepsOrder(v, f, level, w);
    EntriesAfterFlush(v, f, level, w);
  }

  lemma EntriesAfterFlush(v: Version, f: File, level: nat, w: Version)
    requires Flushed(v, f, level, w)
    ensures VersionEntries(w) == VersionEntries(v) + set e | e in f.entries
  {
    assert FilesOf(w) == FilesOf(v) + {f} by {
      forall g ensures g in FilesOf(w) <==> g in FilesOf(v) || g == f {
        if g in FilesOf(w) {
          var l :| 0 <= l < |w.files| && g in w.files[l];
        }
        if g in FilesOf(v) {
          var l :| 0 <= l < |v.files| && g in v.files[l];
          assert g in w.files[l];
        }
        assert f in w.files[level];
      }
    }
  }
}
