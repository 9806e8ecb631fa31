/** The database as a whole (db/db_impl.cc Get, Write, MakeRoomForWrite,
    CompactMemTable, DoCompactionWork, GetSnapshot; db/snapshot.h): whatever
    writes, flushes and compactions happen, a read at a live snapshot answers
    from all that was ever written. */
module Databases {
  import opened Keys
  import opened Lookup
  import opened Versions
  import opened Inputs
  import opened Install
  import opened Compaction
  import opened CompactionMeaning

  // ----- layers -----

  ghost predicate SomeVisible(es: set<Entry>, k: UserKey, s: SequenceNumber) {
    exists e :: e in es && Visible(e, k, s)
  }

  /** Entries of `over` are newer than those of `under`, user key by user key. */
  ghost predicate Above(over: set<Entry>, under: set<Entry>) {
    forall e, d :: e in over && d in under && e.key.user == d.key.user ==> e.key.sn > d.key.sn
  }

  /** A newer layer answers alone if it sees the key at all. */
  lemma LayeredAnswer(over: set<Entry>, under: set<Entry>, k: UserKey, s: SequenceNumber)
    requires Above(over, under) && DistinctVersions(over) && DistinctVersions(under)
    ensures Answer(over + under, k, s) == if SomeVisible(over, k, s) then Answer(over, k, s) else Answer(under, k, s)
    ensures DistinctVersions(over + under)
  {
    if SomeVisible(over, k, s) {
      AnswerCases(over, k, s);
      var e :| IsNewest(over, k, s, e);
      assert IsNewest(over + under, k, s, e);
      AnswerIs(over, k, s, e);
      AnswerIs(over + under, k, s, e);
    } else {
      AnswerCases(under, k, s);
      AnswerCases(over + under, k, s);
      if e :| IsNewest(under, k, s, e) {
        assert IsNewest(over + under, k, s, e);
        AnswerIs(under, k, s, e);
        AnswerIs(over + under, k, s, e);
      }
    }
  }

  // ----- the state -----

  datatype DB = DB(
    mem: seq<Entry>, imm: Option<seq<Entry>>, version: Version, last: nat, snapshots: seq<nat>, nextFile: nat,
    all: seq<Entry>, memBase: nat, immBase: nat, floor: nat)

  const EMPTY := DB([], None, Version([[], [], [], [], [], [], []]), 0, [], 1, [], 0, 0, 0)

  function ImmEntries(db: DB): (r: seq<Entry>) {
    if db.imm.Some? then db.imm.value else []
  }

  ghost function MemTables(db: DB): (r: set<Entry>) {
    AsSet(db.mem) + AsSet(ImmEntries(db))
  }

  ghost function Store(db: DB): (r: set<Entry>) {
    MemTables(db) + VersionEntries(db.version)
  }

  /** SnapshotList::oldest, or the last sequence number: what a compaction must preserve. */
  function Oldest(db: DB): (r: nat) {
    if db.snapshots == [] then db.last else db.snapshots[0]
  }

  /** DBImpl::Get: the memtable, then the immutable one, then the files. */
  ghost function Get(db: DB, k: UserKey, s: SequenceNumber): (r: Option<Bytes>) {
    if SomeVisible(AsSet(db.mem), k, s) then Answer(AsSet(db.mem), k, s)
    else if SomeVisible(AsSet(ImmEntries(db)), k, s) then Answer(AsSet(ImmEntries(db)), k, s)
    else Answer(VersionEntries(db.version), k, s)
  }

  // ----- the steps -----

  datatype Step =
    | Write(es: seq<Entry>)
    | Rotate
    | Flush(f: File, level: nat, w: Version)
    | FlushNothing
    | Compact(level: nat, inputs0: seq<File>, inputs1: seq<File>, input: seq<Entry>, smallest: SequenceNumber, outputs: seq<File>, w: Version)
    | Move(level: nat, f: File, w: Version)
    | Snapshot
    | Release(i: nat)

  /** The memtable as a table, where PickLevelForMemTableOutput puts it. */
  ghost predicate FlushesTo(db: DB, f: File, level: nat, w: Version) {
    db.imm.Some? && ValidFile(f) && f.number == db.nextFile && AsSet(f.entries) == AsSet(db.imm.value) &&
    Flushed(db.version, f, level, w) &&
    (level > 0 ==> forall l, g :: 0 <= l <= level && g in db.version.files[l] ==> !Overlaps(g, UserRange(f.smallest, f.largest)))
  }

  /** A compaction has inputs chosen at the version it is installed on, and the oldest
      snapshot of a moment since the last compaction; its outputs take new numbers. */
  ghost predicate Enabled(db: DB, step: Step) {
    match step
    case Write(es) => Rising(es, db.last, db.last + |es|) && db.last + |es| < MAX_SEQUENCE
    case Rotate => db.imm.None?
    case Flush(f, level, w) => FlushesTo(db, f, level, w)
    case FlushNothing => db.imm == Some([])
    case Compact(level, inputs0, inputs1, input, smallest, outputs, w) =>
      db.floor <= smallest <= Oldest(db) && RanCompaction(db.version, level, inputs0, inputs1, input, smallest, outputs, w) &&
      forall i :: 0 <= i < |outputs| ==> outputs[i].number == db.nextFile + i
    case Move(level, f, w) => Chosen(db.version, level, [f], []) && Compacted(db.version, level, [f], [], [f], w)
    case Snapshot => true
    case Release(i) => i < |db.snapshots|
  }

  function Do(db: DB, step: Step): (r: DB) {
    match step
    case Write(es) => db.(mem := db.mem + es, last := db.last + |es|, all := db.all + es)
    case Rotate => db.(imm := Some(db.mem), mem := [], immBase := db.memBase, memBase := db.last)
    case Flush(f, level, w) => db.(imm := None, version := w, nextFile := db.nextFile + 1)
    case FlushNothing => db.(imm := None)
    case Compact(_, _, _, _, smallest, outputs, w) =>
      db.(version := w, floor := smallest, nextFile := db.nextFile + |outputs|)
    case Move(_, _, w) => db.(version := w)
    case Snapshot => db.(snapshots := db.snapshots + [db.last])
    case Release(i) => if i < |db.snapshots| then db.(snapshots := db.snapshots[..i] + db.snapshots[i + 1..]) else db
  }

  // ----- what every step keeps -----

  /** Sequence numbers separate the memtables from each other and from the files. */
  ghost predicate Layered(db: DB) {
    db.immBase <= db.memBase <= db.last < MAX_SEQUENCE && Rising(db.mem, db.memBase, db.last) &&
    Rising(ImmEntries(db), db.immBase, db.memBase) &&
    forall e :: e in VersionEntries(db.version) ==> e.key.sn <= if db.imm.Some? then db.immBase else db.memBase
  }

  ghost predicate Filed(db: DB) {
    ValidVersion(db.version) && forall g :: g in db.version.files[0] ==> g.number < db.nextFile
  }

  /** Snapshots are in the order they were taken, none below what compactions kept. */
  ghost predicate Listed(db: DB) {
    db.floor <= db.last && (forall i :: 0 <= i < |db.snapshots| ==> db.floor <= db.snapshots[i] <= db.last) &&
    forall i, j :: 0 <= i < j < |db.snapshots| ==> db.snapshots[i] <= db.snapshots[j]
  }

  ghost predicate Faithful(db: DB) {
    Rising(db.all, 0, db.last) && db.floor <= MAX_SEQUENCE && SameAnswers(AsSet(db.all), Store(db), db.floor)
  }

  /** What every step keeps, whatever it does to reads. */
  ghost predicate Sound(db: DB) {
    Layered(db) && Filed(db) && Listed(db)
  }

  ghost predicate Inv(db: DB) {
    Sound(db) && Faithful(db)
  }

  lemma LayersAbove(db: DB)
    requires Layered(db) && Filed(db)
    ensures Above(AsSet(db.mem), AsSet(ImmEntries(db)) + VersionEntries(db.version))
    ensures Above(AsSet(ImmEntries(db)), VersionEntries(db.version)) && Above(MemTables(db), VersionEntries(db.version))
    ensures DistinctVersions(AsSet(db.mem)) && DistinctVersions(AsSet(ImmEntries(db))) && DistinctVersions(VersionEntries(db.version))
    ensures DistinctVersions(MemTables(db))
  {
    RisingIsDistinct(db.mem, db.memBase, db.last);
    RisingIsDistinct(ImmEntries(db), db.immBase, db.memBase);
    VersionsAreDistinct(db.version);
    LayeredAnswer(AsSet(db.mem), AsSet(ImmEntries(db)), 0.0, 0);
  }

  /** Reading layer by layer is reading the whole store. */
  lemma GetReadsStore(db: DB, k: UserKey, s: SequenceNumber)
    requires Layered(db) && Filed(db)
    ensures Get(db, k, s) == Answer(Store(db), k, s)
  {
    LayersAbove(db);
    var imm, files := AsSet(ImmEntries(db)), VersionEntries(db.version);
    LayeredAnswer(imm, files, k, s);
    LayeredAnswer(AsSet(db.mem), imm + files, k, s);
    assert Store(db) == AsSet(db.mem) + (imm + files);
  }

  /** New entries on top of two stores that answer alike. */
  lemma SameUnderLayer(over: set<Entry>, a: set<Entry>, b: set<Entry>, from: SequenceNumber)
    requires Above(over, a) && Above(over, b) && DistinctVersions(over) && DistinctVersions(a) && DistinctVersions(b)
    requires SameAnswers(a, b, from)
    ensures SameAnswers(over + a, over + b, from)
  {
    forall k: UserKey, s: SequenceNumber | from <= s ensures Answer(over + a, k, s) == Answer(over + b, k, s) {
      LayeredAnswer(over, a, k, s);
      LayeredAnswer(over, b, k, s);
    }
  }

  lemma StoreBelow(db: DB)
    requires Layered(db) && Filed(db)
    ensures DistinctVersions(Store(db)) && forall e :: e in Store(db) ==> e.key.sn <= db.last
  {
    LayersAbove(db);
    LayeredAnswer(MemTables(db), VersionEntries(db.version), 0.0, 0);
  }

  lemma WriteKeepsFaithful(db: DB, es: seq<Entry>)
    requires Inv(db) && Enabled(db, Write(es))
    ensures Faithful(Do(db, Write(es)))
  {
    var t := Do(db, Write(es));
    RisingConcat(db.all, es, 0, db.last, t.last);
    RisingIsDistinct(db.all, 0, db.last);
    RisingIsDistinct(es, db.last, t.last);
    StoreBelow(db);
    SameUnderLayer(AsSet(es), AsSet(db.all), Store(db), db.floor);
    assert AsSet(t.all) == AsSet(es) + AsSet(db.all);
    assert Store(t) == AsSet(es) + Store(db);
  }

  /** The flushed table is newer than every file, and its number is new. */
  lemma FlushIsPlaced(db: DB, f: File, level: nat, w: Version)
    requires Sound(db) && FlushesTo(db, f, level, w)
    ensures FlushPlacement(db.version, f, level)
  {
    LayersAbove(db);
    forall l, g | 0 <= l < NUM_LEVELS && g in db.version.files[l] ensures Newer(f, g) {
      forall e, d | e in f.entries && d in g.entries && e.key.user == d.key.user ensures e.key.sn > d.key.sn {
        assert e in AsSet(f.entries) && e in AsSet(ImmEntries(db));
        assert g in FilesOf(db.version) && d in VersionEntries(db.version);
      }
    }
  }

  lemma FlushKeepsStore(db: DB, f: File, level: nat, w: Version)
    requires Sound(db) && FlushesTo(db, f, level, w)
    ensures Sound(Do(db, Flush(f, level, w))) && Store(Do(db, Flush(f, level, w))) == Store(db)
  {
    FlushIsPlaced(db, f, level, w);
    FlushKeepsVersion(db.version, f, level, w);
    var t := Do(db, Flush(f, level, w));
    assert AsSet(f.entries) == set e | e in f.entries;
    assert Store(t) == Store(db);
    forall e | e in VersionEntries(w) ensures e.key.sn <= db.memBase {
      if e !in VersionEntries(db.version) { assert e in AsSet(ImmEntries(db)); }
    }
  }

  /** A compaction adds no entries, and nothing to level 0. */
  lemma CompactAddsNothing(db: DB, step: Step)
    requires step.Compact? && Enabled(db, step)
    ensures ValidVersion(step.w) && VersionEntries(step.w) <= VersionEntries(db.version)
    ensures forall g :: g in step.w.files[0] ==> g in db.version.files[0]
  {
    var v, w := db.version, step.w;
    CompactionPreservesIff(v, step.level, step.inputs0, step.inputs1, step.input, step.smallest, step.outputs, w);
    OutputsOfRun(v, step.level, step.inputs0, step.inputs1, step.input, step.smallest, step.outputs, w);
    KeptMembers(v, step.level, step.input, |step.input|, step.smallest);
    EntriesSplit(v, step.level, step.inputs0, step.inputs1, step.input);
    EntriesAfter(v, step.level, step.inputs0, step.inputs1, step.outputs, w);
  }

  lemma WriteKeepsSound(db: DB, es: seq<Entry>)
    requires Sound(db) && Enabled(db, Write(es))
    ensures Sound(Do(db, Write(es)))
  {
    RisingConcat(db.mem, es, db.memBase, db.last, db.last + |es|);
  }

  lemma RotateKeepsSound(db: DB)
    requires Sound(db) && Enabled(db, Rotate)
    ensures Sound(Do(db, Rotate))
  {}

  lemma SnapshotsKeepSound(db: DB, step: Step)
    requires Sound(db) && Enabled(db, step) && (step.Snapshot? || step.Release?)
    ensures Sound(Do(db, step))
  {}

  lemma MoveKeepsSound(db: DB, step: Step)
    requires Sound(db) && step.Move? && Enabled(db, step)
    ensures Sound(Do(db, step)) && Store(Do(db, step)) == Store(db)
  {
    TrivialMovePreserves(db.version, step.level, step.f, step.w);
  }

  lemma CompactKeepsSound(db: DB, step: Step)
    requires Sound(db) && step.Compact? && Enabled(db, step)
    ensures Sound(Do(db, step))
  {
    CompactAddsNothing(db, step);
  }

  lemma StepKeepsSound(db: DB, step: Step)
    requires Sound(db) && Enabled(db, step)
    ensures Sound(Do(db, step))
  {
    match step
    case Write(es) => WriteKeepsSound(db, es);
    case Flush(f, level, w) => FlushKeepsStore(db, f, level, w);
    case Compact(_, _, _, _, _, _, _) => CompactKeepsSound(db, step);
    case Move(_, _, _) => MoveKeepsSound(db, step);
    case Rotate => RotateKeepsSound(db);
    case Snapshot => SnapshotsKeepSound(db, step);
    case Release(_) => SnapshotsKeepSound(db, step);
    case FlushNothing =>
  }

  // ----- what harms reads -----

  /** The compaction splits `k` behind its deletion marker, and no entry of `k` that
      everybody sees is left in the memtables. */
  ghost predicate Hurts(db: DB, step: Step, k: UserKey) {
    step.Compact? && step.level + 1 < |db.version.files| &&
    Splits(db.version, step.level, step.inputs1, step.smallest, k) && !SomeVisible(MemTables(db), k, step.smallest)
  }

  ghost predicate Harmless(db: DB, step: Step) {
    forall k :: !Hurts(db, step, k)
  }

  /** Files that end at a user-key boundary split nothing. */
  lemma ClosedIsHarmless(db: DB, step: Step)
    requires step.Compact? && Enabled(db, step) && NoBoundaryLeft(db.version.files[step.level + 1], step.inputs1)
    ensures Harmless(db, step)
  {
    ParentsAreContiguous(db.version, step.level, step.inputs0, step.inputs1);
    BoundaryFreeLeavesNoOlder(db.version.files[step.level + 1], step.inputs1);
    forall k ensures !Hurts(db, step, k) {
      NoOlderNeverSplits(db.version, step.level, step.inputs1, step.smallest, k);
    }
  }

  /** Reads of the store before and after a compaction, memtables included. */
  lemma CompactedReads(db: DB, step: Step, k: UserKey, s: SequenceNumber)
    requires Sound(db) && step.Compact? && Enabled(db, step)
    ensures var mem := MemTables(db);
            Answer(Store(db), k, s) == (if SomeVisible(mem, k, s) then Answer(mem, k, s) else Answer(VersionEntries(db.version), k, s)) &&
            Answer(Store(Do(db, step)), k, s) == if SomeVisible(mem, k, s) then Answer(mem, k, s) else Answer(VersionEntries(step.w), k, s)
  {
    LayersAbove(db);
    CompactAddsNothing(db, step);
    VersionsAreDistinct(step.w);
    LayeredAnswer(MemTables(db), VersionEntries(db.version), k, s);
    LayeredAnswer(MemTables(db), VersionEntries(step.w), k, s);
  }

  lemma HarmlessKeepsRead(db: DB, step: Step, k: UserKey, s: SequenceNumber)
    requires Inv(db) && step.Compact? && Enabled(db, step) && !Hurts(db, step, k) && step.smallest <= s
    ensures Answer(AsSet(db.all), k, s) == Answer(Store(Do(db, step)), k, s)
  {
    CompactedReads(db, step, k, s);
    if Splits(db.version, step.level, step.inputs1, step.smallest, k) {
      var e :| e in MemTables(db) && Visible(e, k, step.smallest);
      assert Visible(e, k, s);
    } else {
      UnsplitKeyKeepsReads(db.version, step.level, step.inputs0, step.inputs1, step.input, step.smallest, step.outputs, step.w, k, s);
    }
  }

  lemma HarmfulBreaksRead(db: DB, step: Step, k: UserKey)
    requires Inv(db) && step.Compact? && Enabled(db, step) && Hurts(db, step, k)
    ensures Answer(AsSet(db.all), k, step.smallest) == None != Answer(Store(Do(db, step)), k, step.smallest)
  {
    CompactedReads(db, step, k, step.smallest);
    var i: nat, d :| SplitDeletion(db.version, step.level, step.inputs1, step.smallest, k, i, d);
    SplitChangesRead(db.version, step.level, step.inputs0, step.inputs1, step.input, step.smallest, step.outputs, step.w, k, i, d);
  }

  lemma HarmlessKeepsFaithful(db: DB, step: Step)
    requires Inv(db) && step.Compact? && Enabled(db, step) && Harmless(db, step)
    ensures Faithful(Do(db, step))
  {
    var t := Do(db, step);
    forall k: UserKey, s: SequenceNumber | step.smallest <= s ensures Answer(AsSet(db.all), k, s) == Answer(Store(t), k, s) {
      HarmlessKeepsRead(db, step, k, s);
    }
  }

  lemma FaithfulAt(db: DB, k: UserKey, s: SequenceNumber)
    requires Faithful(db) && db.floor <= s
    ensures Answer(AsSet(db.all), k, s) == Answer(Store(db), k, s)
  {}

  lemma HarmfulBreaksFaithful(db: DB, step: Step)
    requires Inv(db) && step.Compact? && Enabled(db, step) && !Harmless(db, step)
    ensures !Faithful(Do(db, step))
  {
    var k :| Hurts(db, step, k);
    HarmfulBreaksRead(db, step, k);
    if Faithful(Do(db, step)) {
      FaithfulAt(Do(db, step), k, step.smallest);
    }
  }

  /** A compaction keeps every read at or above its oldest snapshot exactly when it is
      harmless. */
  lemma CompactKeepsReadsIff(db: DB, step: Step)
    requires Inv(db) && step.Compact? && Enabled(db, step)
    ensures Faithful(Do(db, step)) <==> Harmless(db, step)
  {
    if Harmless(db, step) {
      HarmlessKeepsFaithful(db, step);
    } else {
      HarmfulBreaksFaithful(db, step);
    }
  }

  lemma StepIsFaithfulIff(db: DB, step: Step)
    requires Inv(db) && Enabled(db, step)
    ensures Sound(Do(db, step)) && (Faithful(Do(db, step)) <==> Harmless(db, step))
  {
    StepKeepsSound(db, step);
    match step
    case Write(es) => WriteKeepsFaithful(db, es);
    case Flush(f, level, w) => FlushKeepsStore(db, f, level, w);
    case Compact(_, _, _, _, _, _, _) => CompactKeepsReadsIff(db, step);
    case Move(_, _, _) => MoveKeepsSound(db, step);
    case _ => assert Store(Do(db, step)) == Store(db);
  }

  // ----- runs -----

  ghost predicate Legal(db: DB, steps: seq<Step>)
    decreases |steps|
  {
    steps == [] || (Enabled(db, steps[0]) && Legal(Do(db, steps[0]), steps[1..]))
  }

  function Final(db: DB, steps: seq<Step>): (r: DB)
    decreases |steps|
  {
    if steps == [] then db else Final(Do(db, steps[0]), steps[1..])
  }

  /** No compaction of the run splits a key behind a marker that is still the last word. */
  ghost predicate HarmlessRun(db: DB, steps: seq<Step>)
    decreases |steps|
  {
    steps == [] || (Harmless(db, steps[0]) && HarmlessRun(Do(db, steps[0]), steps[1..]))
  }

  /** In every state of the run, reads at or above the oldest snapshot answer from all
      that was written. */
  ghost predicate AlwaysFaithful(db: DB, steps: seq<Step>)
    decreases |steps|
  {
    Faithful(db) && (steps == [] || AlwaysFaithful(Do(db, steps[0]), steps[1..]))
  }

  lemma EmptyInv()
    ensures Inv(EMPTY)
  {
    assert VersionEntries(EMPTY.version) == {};
    assert Store(EMPTY) == {} == AsSet(EMPTY.all);
  }

  /** A run keeps all reads, all the way, exactly when its compactions are harmless. */
  lemma {:induction false} RunIsFaithfulIff(db: DB, steps: seq<Step>)
    requires Inv(db) && Legal(db, steps)
    ensures AlwaysFaithful(db, steps) <==> HarmlessRun(db, steps)
    decreases |steps|
  {
    if steps != [] {
      StepIsFaithfulIff(db, steps[0]);
      if Harmless(db, steps[0]) {
        RunIsFaithfulIff(Do(db, steps[0]), steps[1..]);
      } else {
        assert !Faithful(Do(db, steps[0]));
      }
    }
  }

  lemma {:induction false} RunKeepsInv(db: DB, steps: seq<Step>)
    requires Inv(db) && Legal(db, steps) && HarmlessRun(db, steps)
    ensures Inv(Final(db, steps))
    decreases |steps|
  {
    if steps != [] {
      StepIsFaithfulIff(db, steps[0]);
      RunKeepsInv(Do(db, steps[0]), steps[1..]);
    }
  }

  lemma {:induction false} RunKeepsSound(db: DB, steps: seq<Step>)
    requires Sound(db) && Legal(db, steps)
    ensures Sound(Final(db, steps))
    decreases |steps|
  {
    if steps != [] {
      StepKeepsSound(db, steps[0]);
      RunKeepsSound(Do(db, steps[0]), steps[1..]);
    }
  }

  /** In every run the version stays valid and a read answers from the whole store;
      and if the compactions were harmless, a read at the current sequence number or
      at a live snapshot answers from all that was ever written, as if nothing had
      been flushed or compacted. */
  lemma ReadsSurvive(steps: seq<Step>, k: UserKey, s: SequenceNumber)
    requires Legal(EMPTY, steps)
    ensures var db := Final(EMPTY, steps);
            ValidVersion(db.version) && Get(db, k, s) == Answer(Store(db), k, s) &&
            (HarmlessRun(EMPTY, steps) && (s == db.last || s in db.snapshots) ==> Get(db, k, s) == Answer(AsSet(db.all), k, s))
  {
    EmptyInv();
    RunKeepsSound(EMPTY, steps);
    GetReadsStore(Final(EMPTY, steps), k, s);
    if HarmlessRun(EMPTY, steps) {
      RunKeepsInv(EMPTY, steps);
      if s == Final(EMPTY, steps).last || s in Final(EMPTY, steps).snapshots {
        LiveRead(Final(EMPTY, steps), k, s);
      }
    }
  }

  /** No live snapshot is below what the compactions kept. */
  lemma LiveRead(db: DB, k: UserKey, s: SequenceNumber)
    requires Listed(db) && Faithful(db) && (s == db.last || s in db.snapshots)
    ensures Answer(AsSet(db.all), k, s) == Answer(Store(db), k, s)
  {
    FaithfulAt(db, k, s);
  }
}
