/** Versions: seven levels of table files, and point lookups in them
    (db/version_set.cc, db/version_edit.h). */
module Versions {
  import opened Keys
  import opened Lookup

  const NUM_LEVELS := 7

  /** FileMetaData together with the table it names. */
  datatype File = File(number: nat, size: nat, smallest: IKey, largest: IKey, entries: seq<Entry>)

  datatype Version = Version(files: seq<seq<File>>)

  ghost predicate ValidFile(f: File) {
    f.entries != [] && Sorted(f.entries) &&
    f.smallest == f.entries[0].key && f.largest == f.entries[|f.entries| - 1].key
  }

  ghost predicate AllValid(files: seq<File>) {
    forall i :: 0 <= i < |files| ==> ValidFile(files[i])
  }

  ghost predicate DisjointSorted(files: seq<File>) {
    forall i, j :: 0 <= i < j < |files| ==> Before(files[i].largest, files[j].smallest)
  }

  /** Wherever `f` and `g` hold the same user key, `f` holds the newer entry. */
  ghost predicate Newer(f: File, g: File) {
    forall e, d :: e in f.entries && d in g.entries && e.key.user == d.key.user ==> e.key.sn > d.key.sn
  }

  ghost predicate NewerByNumber(files: seq<File>) {
    forall f, g :: f in files && g in files && f != g ==>
      f.number != g.number && (f.number > g.number ==> Newer(f, g))
  }

  ghost predicate NewerAbove(v: Version) {
    forall i, j, f, g :: 0 <= i < j < |v.files| && f in v.files[i] && g in v.files[j] ==> Newer(f, g)
  }

  /** The invariant every installed version keeps. */
  ghost predicate ValidVersion(v: Version) {
    |v.files| == NUM_LEVELS &&
    (forall l :: 0 <= l < NUM_LEVELS ==> AllValid(v.files[l])) &&
    (forall l :: 1 <= l < NUM_LEVELS ==> DisjointSorted(v.files[l])) &&
    NewerByNumber(v.files[0]) &&
    NewerAbove(v)
  }

  ghost function FilesOf(v: Version): (r: set<File>) {
    set l, f | 0 <= l < |v.files| && f in v.files[l] :: f
  }

  ghost function EntriesOf(fs: set<File>): (r: set<Entry>) {
    set f, e | f in fs && e in f.entries :: e
  }

  ghost function VersionEntries(v: Version): (r: set<Entry>) {
    EntriesOf(FilesOf(v))
  }

  lemma EntriesLieInRange(f: File, e: Entry)
    requires ValidFile(f) && e in f.entries
    ensures !Before(e.key, f.smallest) && !Before(f.largest, e.key)
  {}

  /** Files of a sorted disjoint level are pairwise ordered entry by entry. */
  lemma LevelOrder(files: seq<File>, i: nat, j: nat, e: Entry, d: Entry)
    requires DisjointSorted(files) && i < j < |files| && ValidFile(files[i]) && ValidFile(files[j])
    requires e in files[i].entries && d in files[j].entries
    ensures Before(e.key, d.key)
  {
    EntriesLieInRange(files[i], e);
    EntriesLieInRange(files[j], d);
  }

  lemma BoundsOrder(files: seq<File>, i: nat, j: nat)
    requires DisjointSorted(files) && i < j < |files| && ValidFile(files[i]) && ValidFile(files[j])
    ensures Before(files[i].largest, files[j].largest) && Before(files[i].smallest, files[j].smallest)
  {
    EntriesLieInRange(files[i], files[i].entries[0]);
    EntriesLieInRange(files[j], files[j].entries[0]);
  }

  lemma SameFileVersions(f: File, d: Entry, e: Entry)
    requires ValidFile(f) && d in f.entries && e in f.entries
    requires d.key.user == e.key.user && d.key.sn == e.key.sn
    ensures d == e
  {}

  lemma DifferentFileVersions(v: Version, l: nat, f: File, m: nat, g: File, d: Entry, e: Entry)
    requires ValidVersion(v) && l <= m < NUM_LEVELS && f in v.files[l] && g in v.files[m]
    requires f != g || l != m
    requires d in f.entries && e in g.entries && d.key.user == e.key.user
    ensures d.key.sn != e.key.sn
  {
    if l < m {
      assert Newer(f, g);
    } else if l == 0 {
      assert Newer(f, g) || Newer(g, f);
    } else {
      var i :| 0 <= i < |v.files[l]| && v.files[l][i] == f;
      var j :| 0 <= j < |v.files[l]| && v.files[l][j] == g;
      if i < j { LevelOrder(v.files[l], i, j, d, e); } else { LevelOrder(v.files[l], j, i, e, d); }
    }
  }

  lemma VersionsAreDistinct(v: Version)
    requires ValidVersion(v)
    ensures DistinctVersions(VersionEntries(v))
  {
    forall d, e | d in VersionEntries(v) && e in VersionEntries(v) && d.key.user == e.key.user && d.key.sn == e.key.sn
      ensures d == e
    {
      var f :| f in FilesOf(v) && d in f.entries;
      var g :| g in FilesOf(v) && e in g.entries;
      var l :| 0 <= l < |v.files| && f in v.files[l];
      var m :| 0 <= m < |v.files| && g in v.files[m];
      if f != g {
        if l <= m { DifferentFileVersions(v, l, f, m, g, d, e); } else { DifferentFileVersions(v, m, g, l, f, e, d); }
      } else {
        SameFileVersions(f, d, e);
      }
    }
  }

  // ----- one table -----

  /** Index of the first entry at or after `key`. */
  function LowerBound(es: seq<Entry>, key: IKey): (i: nat)
    ensures i <= |es|
    ensures forall j :: 0 <= j < i ==> Less(es[j].key, key)
    ensures i < |es| ==> !Less(es[i].key, key)
  {
    if es == [] || !Less(es[0].key, key) then 0 else 1 + LowerBound(es[1..], key)
  }

  /** TableCache::Get with the SaveValue callback: the table delivers its first
      entry at or after the lookup key; only one of that user key is kept. */
  function TableGet(f: File, k: UserKey, s: SequenceNumber): (r: Option<Entry>)
    requires ValidFile(f)
    ensures r.Some? ==> r.value in f.entries && Visible(r.value, k, s)
                        && forall d :: d in f.entries && Visible(d, k, s) ==> d.key.sn <= r.value.key.sn
    ensures r.None? ==> forall d :: d in f.entries ==> !Visible(d, k, s)
  {
    var i := LowerBound(f.entries, SeekKey(k, s));
    if i < |f.entries| && f.entries[i].key.user == k then Some(f.entries[i]) else None
  }

  // ----- searching a level -----

  /** Binary search for the first file whose largest key is at or after `key`. */
  method FindFile(files: seq<File>, key: IKey) returns (index: nat)
    requires AllValid(files) && DisjointSorted(files)
    ensures index <= |files|
    ensures forall i :: 0 <= i < index ==> Less(files[i].largest, key)
    ensures forall i :: index <= i < |files| ==> !Less(files[i].largest, key)
  {
    var left, right := 0, |files|;
    while left < right
      invariant 0 <= left <= right <= |files|
      invariant forall i :: 0 <= i < left ==> Less(files[i].largest, key)
      invariant forall i :: right <= i < |files| ==> !Less(files[i].largest, key)
    {
      var mid := (left + right) / 2;
      if Less(files[mid].largest, key) {
        forall i | 0 <= i < mid ensures Less(files[i].largest, key) {
          BoundsOrder(files, i, mid);
        }
        left := mid + 1;
      } else {
        forall i | mid < i < |files| ensures !Less(files[i].largest, key) {
          BoundsOrder(files, mid, i);
        }
        right := mid;
      }
    }
    index := right;
  }

  predicate CoversUser(f: File, k: UserKey) {
    f.smallest.user <= k <= f.largest.user
  }

  ghost predicate NewestFirst(files: seq<File>) {
    forall i, j :: 0 <= i < j < |files| ==> files[i].number > files[j].number
  }

  function InsertNewestFirst(files: seq<File>, f: File): (r: seq<File>)
    requires NewestFirst(files) && forall g :: g in files ==> g.number != f.number
    ensures NewestFirst(r)
    ensures forall g :: g in r <==> g in files || g == f
  {
    if files == [] || f.number > files[0].number then [f] + files
    else
      var rest := InsertNewestFirst(files[1..], f);
      assert forall g :: g in rest ==> g.number < files[0].number;
      [files[0]] + rest
  }

  /** The level-0 candidates of a lookup, newest first. */
  method OverlappingNewestFirst(files: seq<File>, k: UserKey) returns (tmp: seq<File>)
    requires NewerByNumber(files)
    ensures NewestFirst(tmp)
    ensures forall g :: g in tmp <==> g in files && CoversUser(g, k)
  {
    tmp := [];
    for i := 0 to |files|
      invariant NewestFirst(tmp)
      invariant forall g :: g in tmp <==> g in files[..i] && CoversUser(g, k)
    {
      if CoversUser(files[i], k) && files[i] !in tmp {
        tmp := InsertNewestFirst(tmp, files[i]);
      }
    }
    assert files[..|files|] == files;
  }

  ghost predicate HasNewer(f: File, e: Entry, k: UserKey, s: SequenceNumber) {
    exists d :: d in f.entries && Visible(d, k, s) && d.key.sn > e.key.sn
  }

  /** The one file of a deeper level that can hold `k`. */
  method CandidateFile(files: seq<File>, k: UserKey, s: SequenceNumber) returns (c: seq<File>)
    requires AllValid(files) && DisjointSorted(files)
    ensures |c| <= 1
    ensures forall f :: f in c ==> f in files
    ensures forall f, e :: f in files && e in f.entries && Visible(e, k, s) ==>
              c != [] && (c[0] == f || HasNewer(c[0], e, k, s))
  {
    var index := FindFile(files, SeekKey(k, s));
    if index >= |files| || k < files[index].smallest.user {
      c := [];
    } else {
      c := [files[index]];
    }
    forall f, e | f in files && e in f.entries && Visible(e, k, s)
      ensures c != [] && (c[0] == f || HasNewer(c[0], e, k, s))
    {
      var i :| 0 <= i < |files| && files[i] == f;
      EntriesLieInRange(f, e);
      assert index <= i;
      if index < i {
        assert files[index] in files;
        var last := files[index].entries[|files[index].entries| - 1];
        LevelOrder(files, index, i, last, e);
        LevelOrder(files, index, i, files[index].entries[0], e);
        assert last.key.user == k;
      }
    }
  }

  // ----- Version::Get -----

  ghost predicate NothingVisible(fs: seq<File>, k: UserKey, s: SequenceNumber) {
    forall f, e :: f in fs && e in f.entries ==> !Visible(e, k, s)
  }

  ghost predicate NewestInLevel(fs: seq<File>, k: UserKey, s: SequenceNumber, hit: Entry) {
    (exists f :: f in fs && hit in f.entries) && Visible(hit, k, s) &&
    forall g, e :: g in fs && e in g.entries && Visible(e, k, s) ==> e.key.sn <= hit.key.sn
  }

  /** The files to search in one level, in the order they are searched. */
  ghost predicate SearchOrder(files: seq<File>, level: nat, k: UserKey, s: SequenceNumber, c: seq<File>) {
    (forall f :: f in c ==> f in files) &&
    if level == 0 then
      NewestFirst(c) && forall f, e :: f in files && e in f.entries && Visible(e, k, s) ==> f in c
    else
      |c| <= 1 &&
      forall f, e :: f in files && e in f.entries && Visible(e, k, s) ==> c != [] && (c[0] == f || HasNewer(c[0], e, k, s))
  }

  method Candidates(files: seq<File>, level: nat, k: UserKey, s: SequenceNumber) returns (c: seq<File>)
    requires AllValid(files)
    requires if level == 0 then NewerByNumber(files) else DisjointSorted(files)
    ensures SearchOrder(files, level, k, s, c)
  {
    if level == 0 {
      c := OverlappingNewestFirst(files, k);
      forall f, e | f in files && e in f.entries && Visible(e, k, s) ensures f in c {
        EntriesLieInRange(f, e);
      }
    } else {
      c := CandidateFile(files, k, s);
    }
  }

  lemma FirstHit(files: seq<File>, level: nat, k: UserKey, s: SequenceNumber, c: seq<File>, i: nat)
    requires AllValid(files) && (level == 0 ==> NewerByNumber(files)) && SearchOrder(files, level, k, s, c)
    requires i < |c| && NothingVisible(c[..i], k, s) && ValidFile(c[i]) && TableGet(c[i], k, s).Some?
    ensures NewestInLevel(files, k, s, TableGet(c[i], k, s).value)
  {
    var f, hit := c[i], TableGet(c[i], k, s).value;
    assert f in c;
    forall g, e | g in files && e in g.entries && Visible(e, k, s) ensures e.key.sn <= hit.key.sn {
      if level == 0 && g != f {
        var j :| 0 <= j < |c| && c[j] == g;
        assert i <= j && Newer(f, g);
      }
    }
  }

  /** Searches the candidates of one level in order and stops at the first hit. */
  method LevelGet(files: seq<File>, level: nat, k: UserKey, s: SequenceNumber) returns (r: Option<Entry>)
    requires AllValid(files)
    requires if level == 0 then NewerByNumber(files) else DisjointSorted(files)
    ensures r.Some? ==> NewestInLevel(files, k, s, r.value)
    ensures r.None? ==> NothingVisible(files, k, s)
  {
    var candidates := Candidates(files, level, k, s);
    for i := 0 to |candidates|
      invariant NothingVisible(candidates[..i], k, s)
    {
      assert candidates[i] in candidates && candidates[i] in files;
      r := TableGet(candidates[i], k, s);
      if r.Some? {
        FirstHit(files, level, k, s, candidates, i);
        return;
      }
    }
    assert candidates[..|candidates|] == candidates;
    r := None;
  }

  /** A hit that is the newest of its level is the newest of the version when the
      levels above hold nothing visible: entries never hop over levels. */
  lemma HitIsNewest(v: Version, l: nat, k: UserKey, s: SequenceNumber, hit: Entry)
    requires ValidVersion(v) && l < NUM_LEVELS && NewestInLevel(v.files[l], k, s, hit)
    requires forall m :: 0 <= m < l ==> NothingVisible(v.files[m], k, s)
    ensures IsNewest(VersionEntries(v), k, s, hit)
  {
    var f :| f in v.files[l] && hit in f.entries;
    assert f in FilesOf(v);
    forall e | e in VersionEntries(v) && Visible(e, k, s) ensures e.key.sn <= hit.key.sn {
      var g :| g in FilesOf(v) && e in g.entries;
      var m :| 0 <= m < |v.files| && g in v.files[m];
      if l < m {
        assert Newer(f, g);
      }
    }
  }

  method Get(v: Version, k: UserKey, s: SequenceNumber) returns (r: Option<Bytes>)
    requires ValidVersion(v)
    ensures r == Answer(VersionEntries(v), k, s)
  {
    for level := 0 to NUM_LEVELS
      invariant forall m :: 0 <= m < level ==> NothingVisible(v.files[m], k, s)
    {
      var hit := LevelGet(v.files[level], level, k, s);
      if hit.Some? {
        HitIsNewest(v, level, k, s, hit.value);
        VersionsAreDistinct(v);
        AnswerIs(VersionEntries(v), k, s, hit.value);
        return Content(hit.value);
      }
    }
    assert forall e :: e in VersionEntries(v) ==> !Visible(e, k, s);
    r := None;
  }
}
