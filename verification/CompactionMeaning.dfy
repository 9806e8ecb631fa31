/** What a compaction does to reads: exactly when it preserves them
    (db/db_impl.cc:906-999; db/version_set.cc:1362-1462, 1533-1552). */
module CompactionMeaning {
  import opened Keys
  import opened Lookup
  import opened Versions
  import opened Inputs
  import opened Install
  import opened Compaction

  ghost function Elements(input: seq<Entry>): (r: set<Entry>) {
    set e | e in input
  }

  ghost function KeptSet(v: Version, level: nat, input: seq<Entry>, smallest: SequenceNumber): (r: set<Entry>) {
    Elements(Kept(v, level, input, |input|, smallest))
  }

  /** At the oldest snapshot the newest entry of `k` is a deletion marker among the
      inputs that the compaction drops, and what stays behind still answers. */
  ghost predicate Resurrects(v: Version, level: nat, rest: set<Entry>, input: seq<Entry>, smallest: SequenceNumber, k: UserKey) {
    DeletedAt(rest + Elements(input), input, smallest, k) && BaseLevel(v, level, k) && Answer(rest, k, smallest).Some?
  }

  ghost predicate DeletedAt(all: set<Entry>, input: seq<Entry>, smallest: SequenceNumber, k: UserKey) {
    exists d :: d in input && IsNewest(all, k, smallest, d) && d.key.kind.Deletion?
  }

  ghost predicate SameAnswers(a: set<Entry>, b: set<Entry>, from: SequenceNumber) {
    forall k: UserKey, s: SequenceNumber :: from <= s ==> Answer(a, k, s) == Answer(b, k, s)
  }

  lemma PreviousIsNewer(input: seq<Entry>, i: nat, j: nat)
    requires Sorted(input) && i < j < |input| && input[i].key.user == input[j].key.user
    ensures input[j - 1].key.user == input[j].key.user && input[j - 1].key.sn <= input[i].key.sn
  {}

  /** A dropped newest-visible entry is an obsolete marker, and nothing of its user
      key that is as old survives among the inputs. */
  lemma DroppedNewest(v: Version, level: nat, rest: set<Entry>, input: seq<Entry>, smallest: SequenceNumber,
                      k: UserKey, s: SequenceNumber, e: Entry)
    requires Sorted(input) && smallest <= s
    requires IsNewest(rest + Elements(input), k, s, e) && e in input
    requires e !in KeptSet(v, level, input, smallest)
    ensures Obsolete(v, level, e, smallest)
    ensures forall d :: d in KeptSet(v, level, input, smallest) ==> !Visible(d, k, s)
  {
    KeptMembers(v, level, input, |input|, smallest);
    var i :| 0 <= i < |input| && input[i] == e;
    assert forall j :: 0 <= j < |input| ==> input[j] in rest + Elements(input);
    assert !Hidden(input, i, smallest);
    forall d | d in KeptSet(v, level, input, smallest) ensures !Visible(d, k, s) {
      var j :| 0 <= j < |input| && input[j] == d && Keeps(v, level, input, j, smallest);
      assert d in rest + Elements(input);
      if i < j && d.key.user == k {
        PreviousIsNewer(input, i, j);
      }
    }
  }

  /** With the newest visible entry dropped, what is left answers nothing. */
  lemma PreservedWhenDropped(v: Version, level: nat, rest: set<Entry>, input: seq<Entry>, smallest: SequenceNumber,
                             k: UserKey, s: SequenceNumber, e: Entry)
    requires Sorted(input) && DistinctVersions(rest + Elements(input)) && smallest <= s
    requires !Resurrects(v, level, rest, input, smallest, k)
    requires IsNewest(rest + Elements(input), k, s, e) && e in input && e !in KeptSet(v, level, input, smallest)
    ensures e.key.kind.Deletion? && Answer(rest + KeptSet(v, level, input, smallest), k, s) == None
  {
    var after := rest + KeptSet(v, level, input, smallest);
    DroppedNewest(v, level, rest, input, smallest, k, s, e);
    assert IsNewest(rest + Elements(input), k, smallest, e);
    if a :| IsNewest(after, k, s, a) {
      assert a in rest && a in rest + Elements(input) && a.key.sn <= e.key.sn;
      assert IsNewest(rest, k, smallest, a);
      AnswerIs(rest, k, smallest, a);
    }
  }

  lemma PreservedAt(v: Version, level: nat, rest: set<Entry>, input: seq<Entry>, smallest: SequenceNumber,
                    k: UserKey, s: SequenceNumber)
    requires Sorted(input) && DistinctVersions(rest + Elements(input)) && smallest <= s
    requires !Resurrects(v, level, rest, input, smallest, k)
    ensures Answer(rest + Elements(input), k, s) == Answer(rest + KeptSet(v, level, input, smallest), k, s)
  {
    var before, kept := rest + Elements(input), KeptSet(v, level, input, smallest);
    var after := rest + kept;
    KeptMembers(v, level, input, |input|, smallest);
    assert after <= before;
    AnswerCases(before, k, s);
    if e :| IsNewest(before, k, s, e) {
      AnswerIs(before, k, s, e);
      if e in after {
        AnswerIs(after, k, s, e);
      } else {
        PreservedWhenDropped(v, level, rest, input, smallest, k, s, e);
      }
    }
  }

  lemma ResurrectedAt(v: Version, level: nat, rest: set<Entry>, input: seq<Entry>, smallest: SequenceNumber, k: UserKey)
    requires Sorted(input) && DistinctVersions(rest + Elements(input))
    requires Resurrects(v, level, rest, input, smallest, k)
    ensures Answer(rest + Elements(input), k, smallest) == None
    ensures Answer(rest + KeptSet(v, level, input, smallest), k, smallest) == Answer(rest, k, smallest) != None
  {
    var before, kept := rest + Elements(input), KeptSet(v, level, input, smallest);
    var d :| d in input && IsNewest(before, k, smallest, d) && d.key.kind.Deletion?;
    AnswerIs(before, k, smallest, d);
    KeptMembers(v, level, input, |input|, smallest);
    assert d !in kept;
    DroppedNewest(v, level, rest, input, smallest, k, smallest, d);
    var a :| IsNewest(rest, k, smallest, a);
    AnswerIs(rest, k, smallest, a);
    assert IsNewest(rest + kept, k, smallest, a);
    assert rest + kept <= before;
    AnswerIs(rest + kept, k, smallest, a);
  }

  /** The drop rules preserve every read at or above the oldest snapshot exactly
      when no user key is resurrected. */
  lemma DropRulesPreserveIff(v: Version, level: nat, rest: set<Entry>, input: seq<Entry>, smallest: SequenceNumber)
    requires Sorted(input) && DistinctVersions(rest + Elements(input))
    ensures SameAnswers(rest + Elements(input), rest + KeptSet(v, level, input, smallest), smallest)
            <==> forall k :: !Resurrects(v, level, rest, input, smallest, k)
  {
    var before, after := rest + Elements(input), rest + KeptSet(v, level, input, smallest);
    if forall k :: !Resurrects(v, level, rest, input, smallest, k) {
      forall k: UserKey, s: SequenceNumber | smallest <= s ensures Answer(before, k, s) == Answer(after, k, s) {
        PreservedAt(v, level, rest, input, smallest, k, s);
      }
    } else {
      var k :| Resurrects(v, level, rest, input, smallest, k);
      ResurrectedAt(v, level, rest, input, smallest, k);
      assert Answer(before, k, smallest) != Answer(after, k, smallest);
    }
  }

  // ----- on versions -----

  ghost function ToSet(fs: seq<File>): (r: set<File>) {
    set f | f in fs
  }

  ghost predicate Untouched(level: nat, inputs0: seq<File>, inputs1: seq<File>, l: nat, f: File) {
    !(l == level && f in inputs0) && !(l == level + 1 && f in inputs1)
  }

  ghost function RestFiles(v: Version, level: nat, inputs0: seq<File>, inputs1: seq<File>): (r: set<File>) {
    set l: nat, f | 0 <= l < |v.files| && f in v.files[l] && Untouched(level, inputs0, inputs1, l, f) :: f
  }

  /** The entries a compaction does not touch. */
  ghost function Rest(v: Version, level: nat, inputs0: seq<File>, inputs1: seq<File>): (r: set<Entry>) {
    EntriesOf(RestFiles(v, level, inputs0, inputs1))
  }

  /** `input` is the merge of the input files. */
  ghost predicate IsMerge(input: seq<Entry>, inputs0: seq<File>, inputs1: seq<File>) {
    Sorted(input) && Elements(input) == EntriesOf(ToSet(inputs0) + ToSet(inputs1))
  }

  /** `w` is `v` with the inputs deleted and the outputs added to the parent level. */
  ghost predicate Compacted(v: Version, level: nat, inputs0: seq<File>, inputs1: seq<File>, outputs: seq<File>, w: Version) {
    |v.files| == NUM_LEVELS && |w.files| == NUM_LEVELS && level + 1 < NUM_LEVELS &&
    LevelEdited(v.files[level], inputs0, [], w.files[level]) &&
    LevelEdited(v.files[level + 1], inputs1, outputs, w.files[level + 1]) &&
    forall l :: 0 <= l < NUM_LEVELS && l != level && l != level + 1 ==> w.files[l] == v.files[l]
  }

  ghost predicate OutputsFrom(outputs: seq<File>, input: seq<Entry>) {
    AllValid(outputs) && DisjointSorted(outputs) && forall o, e :: o in outputs && e in o.entries ==> e in input
  }

  lemma {:induction false} FlattenMembers(outputs: seq<File>)
    ensures forall e :: e in Flatten(outputs) <==> exists f :: f in outputs && e in f.entries
  {
    if outputs != [] {
      var front, last := outputs[..|outputs| - 1], outputs[|outputs| - 1];
      FlattenMembers(front);
      assert outputs == front + [last];
    }
  }

  lemma {:induction false} FlattenIsDisjoint(outputs: seq<File>)
    requires AllValid(outputs) && Sorted(Flatten(outputs))
    ensures DisjointSorted(outputs)
  {
    if outputs != [] {
      var front, last := outputs[..|outputs| - 1], outputs[|outputs| - 1];
      var a, b := Flatten(front), last.entries;
      PrefixIsSorted(a, b);
      FlattenIsDisjoint(front);
      FlattenMembers(front);
      forall f | f in front ensures Before(f.largest, last.smallest) {
        var top := f.entries[|f.entries| - 1];
        assert top in a;
        var i :| 0 <= i < |a| && a[i] == top;
        assert (a + b)[i] == top && (a + b)[|a|] == b[0];
      }
    }
  }

  lemma PrefixIsSorted(a: seq<Entry>, b: seq<Entry>)
    requires Sorted(a + b)
    ensures Sorted(a)
  {
    forall i, j | 0 <= i < j < |a| ensures Before(a[i].key, a[j].key) {
      assert a[i] == (a + b)[i] && a[j] == (a + b)[j];
    }
  }

  lemma EntryHome(v: Version, level: nat, inputs0: seq<File>, inputs1: seq<File>, input: seq<Entry>, e: Entry) returns (f: File)
    requires Chosen(v, level, inputs0, inputs1) && IsMerge(input, inputs0, inputs1) && e in input
    ensures e in f.entries
    ensures (f in inputs0 && f in v.files[level]) || (f in inputs1 && f in v.files[level + 1])
  {
    assert e in Elements(input);
    f :| f in ToSet(inputs0) + ToSet(inputs1) && e in f.entries;
  }

  /** A parent file left out lies entirely before or entirely after the input. */
  lemma LeftoverIsApart(v: Version, level: nat, inputs0: seq<File>, inputs1: seq<File>, g: File)
    requires ValidVersion(v) && Chosen(v, level, inputs0, inputs1)
    requires g in v.files[level + 1] && g !in inputs1
    ensures (forall f, e :: (f in inputs0 || f in inputs1) && e in f.entries ==> Before(g.largest, e.key)) ||
            (forall f, e :: (f in inputs0 || f in inputs1) && e in f.entries ==> Before(e.key, g.smallest))
  {
    var parents := v.files[level + 1];
    var r :| CoveredBy(inputs0, parents, inputs1, r);
    var j := IndexOf(parents, g);
    forall f, e | (f in inputs0 || f in inputs1) && e in f.entries
      ensures if g.largest.user < r.lo.value then Before(g.largest, e.key) else Before(e.key, g.smallest)
    {
      if f in inputs0 {
        UpperIsApart(r, f, e, g);
      } else {
        var i := IndexOf(parents, f);
        ParentIsApart(parents, r, i, j, e);
      }
    }
  }

  lemma UpperIsApart(r: Range, f: File, e: Entry, g: File)
    requires r.lo.Some? && r.hi.Some? && ValidFile(f) && Within(f, r) && e in f.entries && !Overlaps(g, r)
    ensures if g.largest.user < r.lo.value then Before(g.largest, e.key) else Before(e.key, g.smallest)
  {
    EntriesLieInRange(f, e);
  }

  lemma ParentIsApart(parents: seq<File>, r: Range, i: nat, j: nat, e: Entry)
    requires AllValid(parents) && DisjointSorted(parents) && i < |parents| && j < |parents|
    requires r.lo.Some? && r.hi.Some? && Overlaps(parents[i], r) && !Overlaps(parents[j], r) && e in parents[i].entries
    ensures if parents[j].largest.user < r.lo.value then Before(parents[j].largest, e.key) else Before(e.key, parents[j].smallest)
  {
    EntriesLieInRange(parents[i], e);
    EntriesLieInRange(parents[i], parents[i].entries[0]);
    EntriesLieInRange(parents[j], parents[j].entries[0]);
    assert i < j || j < i;
  }

  lemma ParentStaysDisjoint(v: Version, level: nat, inputs0: seq<File>, inputs1: seq<File>, input: seq<Entry>,
                            outputs: seq<File>, files: seq<File>)
    requires ValidVersion(v) && Chosen(v, level, inputs0, inputs1) && IsMerge(input, inputs0, inputs1)
    requires OutputsFrom(outputs, input) && LevelEdited(v.files[level + 1], inputs1, outputs, files)
    ensures AllValid(files) && DisjointSorted(files)
  {
    var parents := v.files[level + 1];
    forall i | 0 <= i < |files| ensures ValidFile(files[i]) {
      assert files[i] in files;
    }
    forall g, h | g in files && h in files && g != h
      ensures Before(g.largest, h.smallest) || Before(h.largest, g.smallest)
    {
      if g in outputs && h in outputs {
        var i :| 0 <= i < |outputs| && outputs[i] == g;
        var j :| 0 <= j < |outputs| && outputs[j] == h;
        assert i < j || j < i;
      } else if g in outputs {
        OutputIsApart(v, level, inputs0, inputs1, input, outputs, g, h);
      } else if h in outputs {
        OutputIsApart(v, level, inputs0, inputs1, input, outputs, h, g);
      } else {
        var i :| 0 <= i < |parents| && parents[i] == g;
        var j :| 0 <= j < |parents| && parents[j] == h;
        assert i < j || j < i;
      }
    }
    DisjointFromPairs(files);
  }

  lemma OutputIsApart(v: Version, level: nat, inputs0: seq<File>, inputs1: seq<File>, input: seq<Entry>,
                      outputs: seq<File>, o: File, g: File)
    requires ValidVersion(v) && Chosen(v, level, inputs0, inputs1) && IsMerge(input, inputs0, inputs1)
    requires OutputsFrom(outputs, input) && o in outputs && g in v.files[level + 1] && g !in inputs1
    ensures Before(o.largest, g.smallest) || Before(g.largest, o.smallest)
  {
    LeftoverIsApart(v, level, inputs0, inputs1, g);
    var first, last := o.entries[0], o.entries[|o.entries| - 1];
    assert first in o.entries && last in o.entries;
    var f := EntryHome(v, level, inputs0, inputs1, input, first);
    var h := EntryHome(v, level, inputs0, inputs1, input, last);
  }

  lemma CompactionKeepsOrder(v: Version, level: nat, inputs0: seq<File>, inputs1: seq<File>, input: seq<Entry>,
                             outputs: seq<File>, w: Version)
    requires ValidVersion(v) && Chosen(v, level, inputs0, inputs1) && IsMerge(input, inputs0, inputs1)
    requires OutputsFrom(outputs, input) && Compacted(v, level, inputs0, inputs1, outputs, w)
    ensures NewerAbove(w)
  {
    forall i, j, g, h, e, d | 0 <= i < j < NUM_LEVELS && g in w.files[i] && h in w.files[j]
                              && e in g.entries && d in h.entries && e.key.user == d.key.user
      ensures e.key.sn > d.key.sn
    {
      if i == level + 1 && g in outputs {
        var f := EntryHome(v, level, inputs0, inputs1, input, e);
        assert h in v.files[j] && Newer(f, h);
      } else if j == level + 1 && h in outputs {
        var f := EntryHome(v, level, inputs0, inputs1, input, d);
        assert g in v.files[i] && Newer(g, f);
      } else {
        assert g in v.files[i] && h in v.files[j] && Newer(g, h);
      }
    }
  }

  /** Any outputs made of input entries leave a valid version. */
  lemma CompactionKeepsVersion(v: Version, level: nat, inputs0: seq<File>, inputs1: seq<File>, input: seq<Entry>,
                               outputs: seq<File>, w: Version)
    requires ValidVersion(v) && Chosen(v, level, inputs0, inputs1) && IsMerge(input, inputs0, inputs1)
    requires OutputsFrom(outputs, input) && Compacted(v, level, inputs0, inputs1, outputs, w)
    ensures ValidVersion(w)
  {
    ParentStaysDisjoint(v, level, inputs0, inputs1, input, outputs, w.files[level + 1]);
    LevelStaysValid(v.files[level], inputs0, w.files[level], level);
    CompactionKeepsOrder(v, level, inputs0, inputs1, input, outputs, w);
  }

  lemma LevelStaysValid(before: seq<File>, deleted: seq<File>, after: seq<File>, level: nat)
    requires AllValid(before) && LevelEdited(before, deleted, [], after)
    requires if level == 0 then NewerByNumber(before) else DisjointSorted(before)
    ensures AllValid(after)
    ensures if level == 0 then NewerByNumber(after) else DisjointSorted(after)
  {
    forall i | 0 <= i < |after| ensures ValidFile(after[i]) {
      assert after[i] in after;
    }
    if level > 0 {
      forall g, h | g in after && h in after && g != h
        ensures Before(g.largest, h.smallest) || Before(h.largest, g.smallest)
      {
        var i :| 0 <= i < |before| && before[i] == g;
        var j :| 0 <= j < |before| && before[j] == h;
        assert i < j || j < i;
      }
      DisjointFromPairs(after);
    }
  }

  lemma EntriesSplit(v: Version, level: nat, inputs0: seq<File>, inputs1: seq<File>, input: seq<Entry>)
    requires Chosen(v, level, inputs0, inputs1) && IsMerge(input, inputs0, inputs1)
    ensures VersionEntries(v) == Rest(v, level, inputs0, inputs1) + Elements(input)
  {
    var touched := ToSet(inputs0) + ToSet(inputs1);
    var r :| CoveredBy(inputs0, v.files[level + 1], inputs1, r);
    assert FilesOf(v) == RestFiles(v, level, inputs0, inputs1) + touched by {
      forall f | f in FilesOf(v) ensures f in RestFiles(v, level, inputs0, inputs1) + touched {
        var l :| 0 <= l < |v.files| && f in v.files[l];
        if Untouched(level, inputs0, inputs1, l, f) {
          RestIntro(v, level, inputs0, inputs1, l, f);
        }
      }
      forall f | f in touched ensures f in FilesOf(v) {
        assert f in v.files[level] || f in v.files[level + 1];
      }
    }
  }

  lemma RestIntro(v: Version, level: nat, inputs0: seq<File>, inputs1: seq<File>, l: nat, f: File)
    requires l < |v.files| && f in v.files[l] && Untouched(level, inputs0, inputs1, l, f)
    ensures f in RestFiles(v, level, inputs0, inputs1)
  {}

  lemma EntriesAfter(v: Version, level: nat, inputs0: seq<File>, inputs1: seq<File>, outputs: seq<File>, w: Version)
    requires Compacted(v, level, inputs0, inputs1, outputs, w)
    ensures VersionEntries(w) == Rest(v, level, inputs0, inputs1) + EntriesOf(ToSet(outputs))
  {
    assert FilesOf(w) == RestFiles(v, level, inputs0, inputs1) + ToSet(outputs) by {
      forall f | f in FilesOf(w) ensures f in RestFiles(v, level, inputs0, inputs1) + ToSet(outputs) {
        var l :| 0 <= l < |w.files| && f in w.files[l];
        if f in outputs {
          assert f in ToSet(outputs);
        } else {
          assert l == level ==> f !in inputs0;
          assert l == level + 1 ==> f !in inputs1;
          RestIntro(v, level, inputs0, inputs1, l, f);
        }
      }
      forall f | f in RestFiles(v, level, inputs0, inputs1) ensures f in FilesOf(w) {
        var l: nat :| 0 <= l < |v.files| && f in v.files[l] && Untouched(level, inputs0, inputs1, l, f);
        assert f in w.files[l];
      }
      assert forall f :: f in outputs ==> f in w.files[level + 1];
    }
  }

  /** The outputs of the compaction loop, installed. */
  ghost predicate RanCompaction(v: Version, level: nat, inputs0: seq<File>, inputs1: seq<File>, input: seq<Entry>,
                                smallest: SequenceNumber, outputs: seq<File>, w: Version) {
    ValidVersion(v) && Chosen(v, level, inputs0, inputs1) && IsMerge(input, inputs0, inputs1) &&
    AllValid(outputs) && Flatten(outputs) == Kept(v, level, input, |input|, smallest) &&
    Compacted(v, level, inputs0, inputs1, outputs, w)
  }

  lemma OutputsOfRun(v: Version, level: nat, inputs0: seq<File>, inputs1: seq<File>, input: seq<Entry>,
                     smallest: SequenceNumber, outputs: seq<File>, w: Version)
    requires RanCompaction(v, level, inputs0, inputs1, input, smallest, outputs, w)
    ensures OutputsFrom(outputs, input)
    ensures EntriesOf(ToSet(outputs)) == KeptSet(v, level, input, smallest)
  {
    KeptIsSorted(v, level, input, |input|, smallest);
    KeptMembers(v, level, input, |input|, smallest);
    FlattenIsDisjoint(outputs);
    FlattenMembers(outputs);
    forall o, e | o in outputs && e in o.entries ensures e in input {
      assert e in Flatten(outputs);
    }
    forall e ensures e in EntriesOf(ToSet(outputs)) <==> e in Flatten(outputs) {
      if e in Flatten(outputs) {
        var f :| f in outputs && e in f.entries;
        assert f in ToSet(outputs);
      }
    }
  }

  /** A compaction always leaves a valid version, and it preserves every read at or
      above the oldest snapshot exactly when no user key is resurrected. */
  lemma CompactionPreservesIff(v: Version, level: nat, inputs0: seq<File>, inputs1: seq<File>, input: seq<Entry>,
                               smallest: SequenceNumber, outputs: seq<File>, w: Version)
    requires RanCompaction(v, level, inputs0, inputs1, input, smallest, outputs, w)
    ensures ValidVersion(w)
    ensures SameAnswers(VersionEntries(v), VersionEntries(w), smallest)
            <==> forall k :: !Resurrects(v, level, Rest(v, level, inputs0, inputs1), input, smallest, k)
  {
    OutputsOfRun(v, level, inputs0, inputs1, input, smallest, outputs, w);
    CompactionKeepsVersion(v, level, inputs0, inputs1, input, outputs, w);
    EntriesSplit(v, level, inputs0, inputs1, input);
    EntriesAfter(v, level, inputs0, inputs1, outputs, w);
    VersionsAreDistinct(v);
    DropRulesPreserveIff(v, level, Rest(v, level, inputs0, inputs1), input, smallest);
  }

  // ----- where a resurrection comes from -----

  ghost predicate HoldsUser(f: File, k: UserKey) {
    exists e :: e in f.entries && e.key.user == k
  }

  /** What is left behind in the compacted level or above is newer than the inputs. */
  lemma LeftoverAbove(v: Version, level: nat, inputs0: seq<File>, inputs1: seq<File>, f: File, m: nat, g: File)
    requires ValidVersion(v) && Chosen(v, level, inputs0, inputs1) && m <= level
    requires (f in inputs0 && f in v.files[level]) || (f in inputs1 && f in v.files[level + 1])
    requires g in v.files[m] && Untouched(level, inputs0, inputs1, m, g)
    ensures Newer(g, f)
  {}

  /** A file two levels down or more that holds a user key covers it. */
  lemma LeftoverBelow(v: Version, level: nat, m: nat, g: File, a: Entry)
    requires ValidVersion(v) && level + 2 <= m < NUM_LEVELS && g in v.files[m] && a in g.entries
    ensures !BaseLevel(v, level, a.key.user)
  {
    assert ValidFile(g);
    EntriesLieInRange(g, a);
    assert CoversUser(g, a.key.user);
  }

  /** A parent file that shares a user key with an input of the upper level is an input. */
  lemma LeftoverBeside(v: Version, level: nat, inputs0: seq<File>, inputs1: seq<File>, f: File, d: Entry, g: File, a: Entry)
    requires ValidVersion(v) && Chosen(v, level, inputs0, inputs1) && f in inputs0 && f in v.files[level]
    requires g in v.files[level + 1] && d in f.entries && a in g.entries && a.key.user == d.key.user
    ensures g in inputs1
  {
    var r :| CoveredBy(inputs0, v.files[level + 1], inputs1, r);
    assert ValidFile(g) && ValidFile(f);
    EntriesLieInRange(g, a);
    EntriesLieInRange(f, d);
    assert Within(f, r) && Overlaps(g, r);
  }

  /** An entry left behind that is older than an input entry of its user key can
      only sit in the parent level. */
  lemma OlderLeftoverIsParent(v: Version, level: nat, inputs0: seq<File>, inputs1: seq<File>,
                              f: File, d: Entry, m: nat, g: File, a: Entry)
    requires ValidVersion(v) && Chosen(v, level, inputs0, inputs1) && m < NUM_LEVELS
    requires (f in inputs0 && f in v.files[level]) || (f in inputs1 && f in v.files[level + 1])
    requires g in v.files[m] && Untouched(level, inputs0, inputs1, m, g)
    requires d in f.entries && a in g.entries && a.key.user == d.key.user && a.key.sn < d.key.sn
    requires BaseLevel(v, level, d.key.user)
    ensures m == level + 1 && f in inputs1
  {
    if m <= level {
      LeftoverAbove(v, level, inputs0, inputs1, f, m, g);
    } else if m > level + 1 {
      LeftoverBelow(v, level, m, g, a);
    } else if f in inputs0 && f in v.files[level] {
      LeftoverBeside(v, level, inputs0, inputs1, f, d, g, a);
    }
  }

  lemma RestHome(v: Version, level: nat, inputs0: seq<File>, inputs1: seq<File>, a: Entry) returns (g: File, m: nat)
    requires a in Rest(v, level, inputs0, inputs1)
    ensures a in g.entries && m < |v.files| && g in v.files[m]
    ensures Untouched(level, inputs0, inputs1, m, g)
  {
    g :| g in RestFiles(v, level, inputs0, inputs1) && a in g.entries;
    m :| 0 <= m < |v.files| && g in v.files[m] && Untouched(level, inputs0, inputs1, m, g);
  }

  // ----- the one boundary -----

  /** The parent inputs end with file `i`, the user key `k` goes on in the file after
      it, which starts with a value of `k`; and what everybody sees of `k` is the
      deletion marker `d` of file `i`, with nothing below the parent level to hide. */
  ghost predicate SplitDeletion(v: Version, level: nat, inputs1: seq<File>, smallest: SequenceNumber, k: UserKey,
                                i: nat, d: Entry)
    requires level + 1 < |v.files|
  {
    var parents := v.files[level + 1];
    i + 1 < |parents| && parents[i] in inputs1 && parents[i + 1] !in inputs1 &&
    parents[i + 1].entries != [] && parents[i + 1].entries[0].key.user == k && parents[i + 1].entries[0].key.kind.Value? &&
    d in parents[i].entries && d.key.kind.Deletion? && IsNewest(VersionEntries(v), k, smallest, d) &&
    BaseLevel(v, level, k)
  }

  ghost predicate Splits(v: Version, level: nat, inputs1: seq<File>, smallest: SequenceNumber, k: UserKey)
    requires level + 1 < |v.files|
  {
    exists i: nat, d :: SplitDeletion(v, level, inputs1, smallest, k, i, d)
  }

  lemma EntryAtHome(v: Version, l: nat, f: File, e: Entry)
    requires l < |v.files| && f in v.files[l] && e in f.entries
    ensures e in VersionEntries(v)
  {
    assert f in FilesOf(v);
  }

  /** Of two entries of one user key in a sorted level, the older is in no earlier file. */
  lemma OlderIsLater(files: seq<File>, i: nat, j: nat, d: Entry, a: Entry)
    requires AllValid(files) && DisjointSorted(files) && i < |files| && j < |files|
    requires d in files[i].entries && a in files[j].entries && d.key.user == a.key.user && a.key.sn < d.key.sn
    ensures i <= j
  {
    if j < i { LevelOrder(files, j, i, a, d); }
  }

  lemma FirstIsNewest(files: seq<File>, i: nat, j: nat, a: Entry)
    requires AllValid(files) && DisjointSorted(files) && i <= j < |files| && a in files[j].entries
    requires a.key.user == files[i].smallest.user
    ensures a.key.sn <= files[i].entries[0].key.sn
  {
    if i < j { LevelOrder(files, i, j, files[i].entries[0], a); }
  }

  lemma UntouchedVersions(v: Version, level: nat, inputs0: seq<File>, inputs1: seq<File>, f: File, d: Entry,
                          m: nat, g: File, a: Entry)
    requires ValidVersion(v) && level + 1 < NUM_LEVELS && m < NUM_LEVELS
    requires f in v.files[level + 1] && f in inputs1 && d in f.entries
    requires g in v.files[m] && Untouched(level, inputs0, inputs1, m, g) && a in g.entries && a.key.user == d.key.user
    ensures a.key.sn != d.key.sn
  {
    if level + 1 <= m {
      DifferentFileVersions(v, level + 1, f, m, g, d, a);
    } else {
      DifferentFileVersions(v, m, g, level + 1, f, a, d);
    }
  }

  /** What stays behind of a split key, once the marker in file `i` is the newest,
      lies in later files. */
  lemma RestOfSplit(v: Version, level: nat, inputs0: seq<File>, inputs1: seq<File>, smallest: SequenceNumber,
                    i: nat, d: Entry, a: Entry) returns (j: nat)
    requires ValidVersion(v) && Chosen(v, level, inputs0, inputs1)
    requires i + 1 < |v.files[level + 1]| && v.files[level + 1][i] in inputs1 && d in v.files[level + 1][i].entries
    requires IsNewest(VersionEntries(v), d.key.user, smallest, d) && BaseLevel(v, level, d.key.user)
    requires a in Rest(v, level, inputs0, inputs1) && Visible(a, d.key.user, smallest)
    ensures i < j < |v.files[level + 1]| && a in v.files[level + 1][j].entries
  {
    var parents := v.files[level + 1];
    var g, m := RestHome(v, level, inputs0, inputs1, a);
    EntryAtHome(v, m, g, a);
    UntouchedVersions(v, level, inputs0, inputs1, parents[i], d, m, g, a);
    OlderLeftoverIsParent(v, level, inputs0, inputs1, parents[i], d, m, g, a);
    j := IndexOf(parents, g);
    OlderIsLater(parents, i, j, d, a);
  }

  /** A split key answers, from what stays behind, with the value after the boundary. */
  lemma SplitAnswers(v: Version, level: nat, inputs0: seq<File>, inputs1: seq<File>, smallest: SequenceNumber,
                     k: UserKey, i: nat, d: Entry)
    requires ValidVersion(v) && Chosen(v, level, inputs0, inputs1)
    requires SplitDeletion(v, level, inputs1, smallest, k, i, d)
    ensures Answer(Rest(v, level, inputs0, inputs1), k, smallest) == Content(v.files[level + 1][i + 1].entries[0])
  {
    var parents, rest := v.files[level + 1], Rest(v, level, inputs0, inputs1);
    var first := parents[i + 1].entries[0];
    LevelOrder(parents, i, i + 1, d, first);
    FirstIsLeft(v, level, inputs0, inputs1, i + 1);
    forall a | a in rest && Visible(a, k, smallest) ensures a.key.sn <= first.key.sn {
      var j := RestOfSplit(v, level, inputs0, inputs1, smallest, i, d, a);
      FirstIsNewest(parents, i + 1, j, a);
    }
    assert IsNewest(rest, k, smallest, first);
    RestIsDistinct(v, level, inputs0, inputs1);
    AnswerIs(rest, k, smallest, first);
  }

  lemma FirstIsLeft(v: Version, level: nat, inputs0: seq<File>, inputs1: seq<File>, i: nat)
    requires level + 1 < |v.files| && i < |v.files[level + 1]| && v.files[level + 1][i] !in inputs1
    requires v.files[level + 1][i].entries != []
    ensures v.files[level + 1][i].entries[0] in Rest(v, level, inputs0, inputs1)
  {
    var q := v.files[level + 1][i];
    RestIntro(v, level, inputs0, inputs1, level + 1, q);
    assert q.entries[0] in q.entries;
  }

  lemma RestIsDistinct(v: Version, level: nat, inputs0: seq<File>, inputs1: seq<File>)
    requires ValidVersion(v)
    ensures Rest(v, level, inputs0, inputs1) <= VersionEntries(v) && DistinctVersions(Rest(v, level, inputs0, inputs1))
  {
    forall a | a in Rest(v, level, inputs0, inputs1) ensures a in VersionEntries(v) {
      var g, m := RestHome(v, level, inputs0, inputs1, a);
      EntryAtHome(v, m, g, a);
    }
    VersionsAreDistinct(v);
  }

  /** Between a parent input and a later parent file left out that share `k`, all is
      `k`, and the inputs end at once. */
  lemma SplitIsAdjacent(files: seq<File>, r: Range, i: nat, j: nat, k: UserKey)
    requires AllValid(files) && DisjointSorted(files) && r.hi.Some? && i < j < |files|
    requires Overlaps(files[i], r) && !Overlaps(files[j], r)
    requires HoldsUser(files[i], k) && HoldsUser(files[j], k)
    ensures !Overlaps(files[i + 1], r) && files[i + 1].smallest.user == k
  {
    var e :| e in files[i].entries && e.key.user == k;
    var a :| a in files[j].entries && a.key.user == k;
    EntriesLieInRange(files[i], e);
    EntriesLieInRange(files[j], a);
    EntriesLieInRange(files[i], files[i].entries[0]);
    EntriesLieInRange(files[i + 1], files[i + 1].entries[0]);
    EntriesLieInRange(files[j], files[j].entries[0]);
    if i + 1 < j { BoundsOrder(files, i + 1, j); }
  }

  lemma ResurrectionWitness(v: Version, level: nat, inputs0: seq<File>, inputs1: seq<File>, input: seq<Entry>,
                            smallest: SequenceNumber, k: UserKey) returns (d: Entry, a: Entry)
    requires ValidVersion(v) && Chosen(v, level, inputs0, inputs1) && IsMerge(input, inputs0, inputs1)
    requires Resurrects(v, level, Rest(v, level, inputs0, inputs1), input, smallest, k)
    ensures d in input && IsNewest(VersionEntries(v), k, smallest, d) && d.key.kind.Deletion?
    ensures IsNewest(Rest(v, level, inputs0, inputs1), k, smallest, a) && a.key.kind.Value? && a.key.sn < d.key.sn
  {
    var rest := Rest(v, level, inputs0, inputs1);
    EntriesSplit(v, level, inputs0, inputs1, input);
    VersionsAreDistinct(v);
    d :| d in input && IsNewest(rest + Elements(input), k, smallest, d) && d.key.kind.Deletion?;
    a :| IsNewest(rest, k, smallest, a);
    RestIsDistinct(v, level, inputs0, inputs1);
    AnswerIs(rest, k, smallest, a);
  }

  lemma SplitHomes(v: Version, level: nat, inputs0: seq<File>, inputs1: seq<File>, input: seq<Entry>, d: Entry, a: Entry)
    returns (f: File, g: File)
    requires ValidVersion(v) && Chosen(v, level, inputs0, inputs1) && IsMerge(input, inputs0, inputs1)
    requires d in input && a in Rest(v, level, inputs0, inputs1)
    requires d.key.user == a.key.user && a.key.sn < d.key.sn && BaseLevel(v, level, d.key.user)
    ensures f in inputs1 && d in f.entries
    ensures g in v.files[level + 1] && g !in inputs1 && a in g.entries
  {
    f := EntryHome(v, level, inputs0, inputs1, input, d);
    var m;
    g, m := RestHome(v, level, inputs0, inputs1, a);
    OlderLeftoverIsParent(v, level, inputs0, inputs1, f, d, m, g, a);
  }

  /** The files of the parent level between which a resurrected key is split. */
  lemma SplitFiles(v: Version, level: nat, inputs0: seq<File>, inputs1: seq<File>, input: seq<Entry>, d: Entry, a: Entry)
    returns (i: nat, j: nat)
    requires ValidVersion(v) && Chosen(v, level, inputs0, inputs1) && IsMerge(input, inputs0, inputs1)
    requires d in input && a in Rest(v, level, inputs0, inputs1)
    requires d.key.user == a.key.user && a.key.sn < d.key.sn && BaseLevel(v, level, d.key.user)
    ensures i < j < |v.files[level + 1]| && v.files[level + 1][i] in inputs1 && v.files[level + 1][j] !in inputs1
    ensures d in v.files[level + 1][i].entries && a in v.files[level + 1][j].entries
  {
    var f, g := SplitHomes(v, level, inputs0, inputs1, input, d, a);
    i := ParentInput(v, level, inputs0, inputs1, f);
    j := IndexOf(v.files[level + 1], g);
    OlderIsLater(v.files[level + 1], i, j, d, a);
  }

  lemma IndexOf(files: seq<File>, g: File) returns (j: nat)
    requires g in files
    ensures j < |files| && files[j] == g
  {
    j :| 0 <= j < |files| && files[j] == g;
  }

  lemma ParentInput(v: Version, level: nat, inputs0: seq<File>, inputs1: seq<File>, f: File) returns (i: nat)
    requires Chosen(v, level, inputs0, inputs1) && f in inputs1
    ensures i < |v.files[level + 1]| && v.files[level + 1][i] == f
  {
    var r :| CoveredBy(inputs0, v.files[level + 1], inputs1, r);
    assert f in v.files[level + 1];
    i :| 0 <= i < |v.files[level + 1]| && v.files[level + 1][i] == f;
  }

  lemma ResurrectionSplits(v: Version, level: nat, inputs0: seq<File>, inputs1: seq<File>, input: seq<Entry>,
                           smallest: SequenceNumber, k: UserKey)
    requires ValidVersion(v) && Chosen(v, level, inputs0, inputs1) && IsMerge(input, inputs0, inputs1)
    requires Resurrects(v, level, Rest(v, level, inputs0, inputs1), input, smallest, k)
    ensures Splits(v, level, inputs1, smallest, k)
  {
    var d, a := ResurrectionWitness(v, level, inputs0, inputs1, input, smallest, k);
    var i, j := SplitFiles(v, level, inputs0, inputs1, input, d, a);
    SplitAtOnce(v, level, inputs0, inputs1, i, j, k);
    FirstOfRest(v, level, inputs0, inputs1, smallest, i, d, j, a);
    FoundSplit(v, level, inputs1, smallest, k, i, d);
  }

  lemma SplitAtOnce(v: Version, level: nat, inputs0: seq<File>, inputs1: seq<File>, i: nat, j: nat, k: UserKey)
    requires ValidVersion(v) && Chosen(v, level, inputs0, inputs1) && i < j < |v.files[level + 1]|
    requires v.files[level + 1][i] in inputs1 && v.files[level + 1][j] !in inputs1
    requires HoldsUser(v.files[level + 1][i], k) && HoldsUser(v.files[level + 1][j], k)
    ensures v.files[level + 1][i + 1] !in inputs1 && v.files[level + 1][i + 1].smallest.user == k
  {
    var r :| CoveredBy(inputs0, v.files[level + 1], inputs1, r);
    SplitIsAdjacent(v.files[level + 1], r, i, j, k);
  }

  lemma FoundSplit(v: Version, level: nat, inputs1: seq<File>, smallest: SequenceNumber, k: UserKey, i: nat, d: Entry)
    requires level + 1 < |v.files| && SplitDeletion(v, level, inputs1, smallest, k, i, d)
    ensures Splits(v, level, inputs1, smallest, k)
  {}

  /** The newest entry left of the split key is the first of the file after the boundary. */
  lemma FirstOfRest(v: Version, level: nat, inputs0: seq<File>, inputs1: seq<File>, smallest: SequenceNumber,
                    i: nat, d: Entry, j: nat, a: Entry)
    requires ValidVersion(v) && level + 1 < NUM_LEVELS
    requires i < j < |v.files[level + 1]| && d in v.files[level + 1][i].entries && a in v.files[level + 1][j].entries
    requires v.files[level + 1][i + 1] !in inputs1 && v.files[level + 1][i + 1].smallest.user == d.key.user
    requires Visible(d, d.key.user, smallest)
    requires IsNewest(Rest(v, level, inputs0, inputs1), d.key.user, smallest, a)
    ensures a == v.files[level + 1][i + 1].entries[0]
  {
    var parents := v.files[level + 1];
    LevelOrder(parents, i, i + 1, d, parents[i + 1].entries[0]);
    FirstIsLeft(v, level, inputs0, inputs1, i + 1);
    FirstIsNewest(parents, i + 1, j, a);
    RestIsDistinct(v, level, inputs0, inputs1);
  }

  lemma SplitDeletes(v: Version, level: nat, inputs0: seq<File>, inputs1: seq<File>, input: seq<Entry>,
                     smallest: SequenceNumber, k: UserKey, i: nat, d: Entry)
    requires ValidVersion(v) && Chosen(v, level, inputs0, inputs1) && IsMerge(input, inputs0, inputs1)
    requires SplitDeletion(v, level, inputs1, smallest, k, i, d)
    ensures DeletedAt(Rest(v, level, inputs0, inputs1) + Elements(input), input, smallest, k)
  {
    EntriesSplit(v, level, inputs0, inputs1, input);
    assert v.files[level + 1][i] in ToSet(inputs0) + ToSet(inputs1);
    assert d in Elements(input);
  }

  /** A key is resurrected exactly when the compaction splits it behind its deletion
      marker. */
  lemma ResurrectsIff(v: Version, level: nat, inputs0: seq<File>, inputs1: seq<File>, input: seq<Entry>,
                      smallest: SequenceNumber, k: UserKey)
    requires ValidVersion(v) && Chosen(v, level, inputs0, inputs1) && IsMerge(input, inputs0, inputs1)
    ensures Resurrects(v, level, Rest(v, level, inputs0, inputs1), input, smallest, k)
            <==> Splits(v, level, inputs1, smallest, k)
  {
    if Resurrects(v, level, Rest(v, level, inputs0, inputs1), input, smallest, k) {
      ResurrectionSplits(v, level, inputs0, inputs1, input, smallest, k);
    } else if Splits(v, level, inputs1, smallest, k) {
      var i: nat, d :| SplitDeletion(v, level, inputs1, smallest, k, i, d);
      SplitAnswers(v, level, inputs0, inputs1, smallest, k, i, d);
      SplitDeletes(v, level, inputs0, inputs1, input, smallest, k, i, d);
    }
  }

  lemma OneEnd(files: seq<File>, inputs: seq<File>, a: nat, b: nat)
    requires Contiguous(files, inputs) && a + 1 < |files| && b + 1 < |files|
    requires files[a] in inputs && files[a + 1] !in inputs && files[b] in inputs && files[b + 1] !in inputs
    ensures a == b
  {}

  lemma SplitEnd(v: Version, level: nat, inputs1: seq<File>, smallest: SequenceNumber, k: UserKey) returns (i: nat, d: Entry)
    requires level + 1 < |v.files| && Splits(v, level, inputs1, smallest, k)
    ensures i + 1 < |v.files[level + 1]| && v.files[level + 1][i] in inputs1 && v.files[level + 1][i + 1] !in inputs1
    ensures d in v.files[level + 1][i].entries && d.key.user == k
    ensures v.files[level + 1][i + 1].entries != [] && v.files[level + 1][i + 1].entries[0].key.user == k
  {
    i, d :| SplitDeletion(v, level, inputs1, smallest, k, i, d);
  }

  lemma ParentsAreContiguous(v: Version, level: nat, inputs0: seq<File>, inputs1: seq<File>)
    requires ValidVersion(v) && Chosen(v, level, inputs0, inputs1)
    ensures Contiguous(v.files[level + 1], inputs1)
  {
    var r :| CoveredBy(inputs0, v.files[level + 1], inputs1, r);
    SelectedIsContiguous(v.files[level + 1], r);
  }

  /** At most one user key is split: the parent inputs have one end. */
  lemma OneKeySplits(v: Version, level: nat, inputs0: seq<File>, inputs1: seq<File>, smallest: SequenceNumber,
                     j: UserKey, k: UserKey)
    requires ValidVersion(v) && Chosen(v, level, inputs0, inputs1)
    requires Splits(v, level, inputs1, smallest, j) && Splits(v, level, inputs1, smallest, k)
    ensures j == k
  {
    ParentsAreContiguous(v, level, inputs0, inputs1);
    EndSplitsOneKey(v, level, inputs1, smallest, j, k);
  }

  lemma EndSplitsOneKey(v: Version, level: nat, inputs1: seq<File>, smallest: SequenceNumber, j: UserKey, k: UserKey)
    requires level + 1 < |v.files| && Contiguous(v.files[level + 1], inputs1)
    requires Splits(v, level, inputs1, smallest, j) && Splits(v, level, inputs1, smallest, k)
    ensures j == k
  {
    var a, _ := SplitEnd(v, level, inputs1, smallest, j);
    var b, _ := SplitEnd(v, level, inputs1, smallest, k);
    OneEnd(v.files[level + 1], inputs1, a, b);
  }

  /** A compaction always leaves a valid version, and it preserves every read at or
      above the oldest snapshot exactly when it splits no key behind its marker. */
  lemma CompactionPreservesUnlessSplit(v: Version, level: nat, inputs0: seq<File>, inputs1: seq<File>, input: seq<Entry>,
                                       smallest: SequenceNumber, outputs: seq<File>, w: Version)
    requires RanCompaction(v, level, inputs0, inputs1, input, smallest, outputs, w)
    ensures ValidVersion(w)
    ensures SameAnswers(VersionEntries(v), VersionEntries(w), smallest)
            <==> forall k :: !Splits(v, level, inputs1, smallest, k)
  {
    CompactionPreservesIff(v, level, inputs0, inputs1, input, smallest, outputs, w);
    forall k ensures Resurrects(v, level, Rest(v, level, inputs0, inputs1), input, smallest, k)
                     <==> Splits(v, level, inputs1, smallest, k)
    {
      ResurrectsIff(v, level, inputs0, inputs1, input, smallest, k);
    }
  }

  /** Reads of a key that is not split are kept. */
  lemma UnsplitKeyKeepsReads(v: Version, level: nat, inputs0: seq<File>, inputs1: seq<File>, input: seq<Entry>,
                             smallest: SequenceNumber, outputs: seq<File>, w: Version, k: UserKey, s: SequenceNumber)
    requires RanCompaction(v, level, inputs0, inputs1, input, smallest, outputs, w)
    requires smallest <= s && !Splits(v, level, inputs1, smallest, k)
    ensures Answer(VersionEntries(v), k, s) == Answer(VersionEntries(w), k, s)
  {
    OutputsOfRun(v, level, inputs0, inputs1, input, smallest, outputs, w);
    EntriesSplit(v, level, inputs0, inputs1, input);
    EntriesAfter(v, level, inputs0, inputs1, outputs, w);
    VersionsAreDistinct(v);
    ResurrectsIff(v, level, inputs0, inputs1, input, smallest, k);
    PreservedAt(v, level, Rest(v, level, inputs0, inputs1), input, smallest, k, s);
  }

  /** What a read of the split key finds before and after the compaction. */
  lemma SplitChangesRead(v: Version, level: nat, inputs0: seq<File>, inputs1: seq<File>, input: seq<Entry>,
                         smallest: SequenceNumber, outputs: seq<File>, w: Version, k: UserKey, i: nat, d: Entry)
    requires RanCompaction(v, level, inputs0, inputs1, input, smallest, outputs, w)
    requires SplitDeletion(v, level, inputs1, smallest, k, i, d)
    ensures Answer(VersionEntries(v), k, smallest) == None
    ensures Answer(VersionEntries(w), k, smallest) == Some(v.files[level + 1][i + 1].entries[0].value)
  {
    var rest := Rest(v, level, inputs0, inputs1);
    OutputsOfRun(v, level, inputs0, inputs1, input, smallest, outputs, w);
    EntriesSplit(v, level, inputs0, inputs1, input);
    EntriesAfter(v, level, inputs0, inputs1, outputs, w);
    VersionsAreDistinct(v);
    ResurrectsIff(v, level, inputs0, inputs1, input, smallest, k);
    ResurrectedAt(v, level, rest, input, smallest, k);
    SplitAnswers(v, level, inputs0, inputs1, smallest, k, i, d);
  }

  /** If the parent inputs end at a user-key boundary, reads are preserved. */
  lemma ClosedParentsPreserve(v: Version, level: nat, inputs0: seq<File>, inputs1: seq<File>, input: seq<Entry>,
                              smallest: SequenceNumber, outputs: seq<File>, w: Version)
    requires RanCompaction(v, level, inputs0, inputs1, input, smallest, outputs, w)
    requires NoBoundaryLeft(v.files[level + 1], inputs1)
    ensures ValidVersion(w) && SameAnswers(VersionEntries(v), VersionEntries(w), smallest)
  {
    CompactionPreservesUnlessSplit(v, level, inputs0, inputs1, input, smallest, outputs, w);
    ParentsAreContiguous(v, level, inputs0, inputs1);
    BoundaryFreeLeavesNoOlder(v.files[level + 1], inputs1);
    forall k ensures !Splits(v, level, inputs1, smallest, k) {
      NoOlderNeverSplits(v, level, inputs1, smallest, k);
    }
  }

  lemma NoOlderNeverSplits(v: Version, level: nat, inputs1: seq<File>, smallest: SequenceNumber, k: UserKey)
    requires ValidVersion(v) && level + 1 < NUM_LEVELS && NoOlderLeft(v.files[level + 1], inputs1)
    ensures !Splits(v, level, inputs1, smallest, k)
  {
    if Splits(v, level, inputs1, smallest, k) {
      var i, d := SplitEnd(v, level, inputs1, smallest, k);
      LevelOrder(v.files[level + 1], i, i + 1, d, v.files[level + 1][i + 1].entries[0]);
    }
  }

  /** IsTrivialMove: moving the only input file down keeps all entries. */
  lemma TrivialMovePreserves(v: Version, level: nat, f: File, w: Version)
    requires ValidVersion(v) && Chosen(v, level, [f], []) && Compacted(v, level, [f], [], [f], w)
    ensures ValidVersion(w) && VersionEntries(w) == VersionEntries(v)
  {
    assert f in [f] && ValidFile(f);
    var moved := ToSet([f]) + ToSet([]);
    assert moved == {f} == ToSet([f]);
    assert IsMerge(f.entries, [f], []);
    CompactionKeepsVersion(v, level, [f], [], f.entries, [f], w);
    EntriesSplit(v, level, [f], [], f.entries);
    EntriesAfter(v, level, [f], [], [f], w);
    assert EntriesOf(ToSet([f])) == Elements(f.entries);
  }

  // ----- a version on which the code does resurrect a key -----

  const UPPER := File(5, 1, IKey(1.0, 4, Value), IKey(1.0, 4, Value), [Entry(IKey(1.0, 4, Value), [])])
  const PARENT := File(3, 1, IKey(1.0, 2, Value), IKey(2.0, 3, Deletion),
                       [Entry(IKey(1.0, 2, Value), []), Entry(IKey(2.0, 3, Deletion), [])])
  const SPLIT_OFF := File(4, 1, IKey(2.0, 1, Value), IKey(2.0, 1, Value), [Entry(IKey(2.0, 1, Value), [42])])
  const EXPOSED := Version([[], [UPPER], [PARENT, SPLIT_OFF], [], [], [], []])

  lemma ExposedFiles(l: nat, f: File)
    requires l < NUM_LEVELS && f in EXPOSED.files[l]
    ensures ValidFile(f) && ((l == 1 && f == UPPER) || (l == 2 && (f == PARENT || f == SPLIT_OFF)))
  {}

  lemma ExposedIsValid()
    ensures ValidVersion(EXPOSED)
  {
    forall l, i | 0 <= l < NUM_LEVELS && 0 <= i < |EXPOSED.files[l]| ensures ValidFile(EXPOSED.files[l][i]) {
      ExposedFiles(l, EXPOSED.files[l][i]);
    }
    forall i, j, f, g | 0 <= i < j < NUM_LEVELS && f in EXPOSED.files[i] && g in EXPOSED.files[j] ensures Newer(f, g) {
      ExposedFiles(i, f);
      ExposedFiles(j, g);
    }
  }

  /** Whoever compacts level 1 gets these inputs. */
  lemma ExposedChoice(inputs0: seq<File>, inputs1: seq<File>)
    requires Chosen(EXPOSED, 1, inputs0, inputs1)
    ensures ToSet(inputs0) == {UPPER} && inputs1 == [PARENT]
  {
    var parents := EXPOSED.files[2];
    var r :| CoveredBy(inputs0, parents, inputs1, r);
    assert forall f :: f in inputs0 ==> f == UPPER;
    assert inputs0[0] in inputs0;
    assert parents == [PARENT, SPLIT_OFF];
    assert parents[..1] == [PARENT] && parents[..1][..0] == [];
    assert Selected(parents[..1], r) == [PARENT];
  }

  lemma ExposedSplit(smallest: SequenceNumber)
    requires 3 <= smallest
    ensures SplitDeletion(EXPOSED, 1, [PARENT], smallest, 2.0, 0, PARENT.entries[1])
  {
    var d := PARENT.entries[1];
    EntryAtHome(EXPOSED, 2, PARENT, d);
    forall e | e in VersionEntries(EXPOSED) && Visible(e, 2.0, smallest) ensures e.key.sn <= 3 {
      var f :| f in FilesOf(EXPOSED) && e in f.entries;
      var l :| 0 <= l < |EXPOSED.files| && f in EXPOSED.files[l];
      ExposedFiles(l, f);
    }
  }

  /** What PickCompaction returns here, under any size limit. */
  method PickExposed(byteLimit: nat) returns (inputs0: seq<File>, inputs1: seq<File>)
    ensures Chosen(EXPOSED, 1, inputs0, inputs1)
    ensures ToSet(inputs0) == {UPPER} && inputs1 == [PARENT]
  {
    ExposedIsValid();
    assert UPPER in EXPOSED.files[1];
    inputs0, inputs1 := PickCompaction(EXPOSED, 1, UPPER, byteLimit);
    ExposedChoice(inputs0, inputs1);
  }

  /** The key at 2.0 was deleted; however level 1 is compacted, it reads 42 again: the
      parent file holding its older value starts where the parent input ends. */
  lemma ResurrectionHappens(inputs0: seq<File>, inputs1: seq<File>, input: seq<Entry>, smallest: SequenceNumber,
                            outputs: seq<File>, w: Version)
    requires RanCompaction(EXPOSED, 1, inputs0, inputs1, input, smallest, outputs, w) && 3 <= smallest
    ensures ToSet(inputs0) == {UPPER} && inputs1 == [PARENT]
    ensures Answer(VersionEntries(EXPOSED), 2.0, smallest) == None
    ensures Answer(VersionEntries(w), 2.0, smallest) == Some([42])
  {
    ExposedChoice(inputs0, inputs1);
    ExposedSplit(smallest);
    assert EXPOSED.files[2][1] == SPLIT_OFF;
    SplitChangesRead(EXPOSED, 1, inputs0, inputs1, input, smallest, outputs, w, 2.0, 0, PARENT.entries[1]);
  }
}
