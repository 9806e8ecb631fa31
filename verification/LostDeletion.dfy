/** A run of the database in which a deleted key comes back.

    One key is written and flushed, a snapshot is taken, the key is deleted, and a
    compaction under the snapshot ends an output file between the two versions.
    With the snapshot gone, a write to another key and a compaction of just that
    file drop the deletion marker and leave the older value behind. */
module LostDeletion {
  import opened Keys
  import opened Lookup
  import opened Versions
  import opened Inputs
  import opened Install
  import opened Compaction
  import opened CompactionMeaning
  import opened Databases

  const FIRST := SPLIT_OFF.entries
  const SECOND := PARENT.entries
  const THIRD := UPPER.entries

  const TABLE1 := SPLIT_OFF.(number := 1)
  const TABLE2 := PARENT.(number := 2)
  const TABLE6 := UPPER.(number := 6)

  const FLUSHED1 := Version([[], [], [TABLE1], [], [], [], []])
  const FLUSHED2 := Version([[], [TABLE2], [TABLE1], [], [], [], []])
  const CUT := Version([[], [], [PARENT, SPLIT_OFF], [], [], [], []])
  const LOST := Version([[], [], [TABLE6, SPLIT_OFF], [], [], [], []])

  const CUT_STEP := Compact(1, [TABLE2], [TABLE1], SECOND + FIRST, 1, [PARENT, SPLIT_OFF], CUT)
  const LOSE_STEP := Compact(1, [UPPER], [PARENT], THIRD + SECOND, 4, [TABLE6], LOST)

  // ----- the states -----

  const STATE3 := DB([], None, FLUSHED1, 1, [], 2, FIRST, 1, 0, 0)
  const STATE7 := DB([], None, FLUSHED2, 3, [1], 3, FIRST + SECOND, 3, 1, 0)
  const STATE8 := DB([], None, CUT, 3, [1], 5, FIRST + SECOND, 3, 1, 1)
  const STATE12 := DB([], None, EXPOSED, 4, [], 6, FIRST + SECOND + THIRD, 4, 3, 1)
  const STATE13 := DB([], None, LOST, 4, [], 7, FIRST + SECOND + THIRD, 4, 3, 4)

  // ----- steps put together -----

  /** The steps lead from one sound state to another, and a run may go on from there. */
  ghost predicate Leads(db: DB, steps: seq<Step>, t: DB) {
    Sound(db) && Sound(t) && Legal(db, steps) && Final(db, steps) == t
  }

  lemma OneStep(db: DB, step: Step, t: DB)
    requires Sound(db) && Enabled(db, step) && Do(db, step) == t
    ensures Leads(db, [step], t)
  {
    StepKeepsSound(db, step);
    assert [step][1..] == [];
  }

  lemma {:induction false} JoinRuns(db: DB, a: seq<Step>, b: seq<Step>)
    requires Legal(db, a) && Legal(Final(db, a), b)
    ensures Legal(db, a + b) && Final(db, a + b) == Final(Final(db, a), b)
    decreases |a|
  {
    if a == [] {
      assert a + b == b;
    } else {
      JoinRuns(Do(db, a[0]), a[1..], b);
      assert (a + b)[0] == a[0] && (a + b)[1..] == a[1..] + b;
    }
  }

  lemma Join(db: DB, a: seq<Step>, t: DB, b: seq<Step>, u: DB)
    requires Leads(db, a, t) && Leads(t, b, u)
    ensures Leads(db, a + b, u)
  {
    JoinRuns(db, a, b);
  }

  // ----- a memtable filled and flushed -----

  function Filling(db: DB, es: seq<Entry>): (r: DB) {
    db.(mem := es, last := db.last + |es|, all := db.all + es)
  }

  function Rotated(db: DB, es: seq<Entry>): (r: DB) {
    db.(imm := Some(es), last := db.last + |es|, all := db.all + es, immBase := db.memBase, memBase := db.last + |es|)
  }

  function Flushing(db: DB, es: seq<Entry>, w: Version): (r: DB) {
    Rotated(db, es).(imm := None, version := w, nextFile := db.nextFile + 1)
  }

  function FillSteps(es: seq<Entry>, f: File, level: nat, w: Version): (r: seq<Step>) {
    [Write(es)] + [Rotate] + [Flush(f, level, w)]
  }

  /** What it takes to fill an empty memtable and flush it to a level that is empty,
      as are those above it. */
  ghost predicate Fillable(db: DB, es: seq<Entry>, f: File, level: nat, w: Version) {
    db.mem == [] && db.imm.None? && |db.version.files| == NUM_LEVELS && level < NUM_LEVELS &&
    Enabled(db, Write(es)) && ValidFile(f) && f.number == db.nextFile && f.entries == es &&
    (forall l :: 0 <= l <= level ==> db.version.files[l] == []) && w == Version(db.version.files[level := [f]])
  }

  lemma FillStep(db: DB, es: seq<Entry>)
    requires Sound(db) && db.mem == [] && Enabled(db, Write(es))
    ensures Leads(db, [Write(es)], Filling(db, es))
  {
    assert db.mem + es == es;
    OneStep(db, Write(es), Filling(db, es));
  }

  lemma RotateStep(db: DB, es: seq<Entry>)
    requires Sound(Filling(db, es)) && db.mem == [] && db.imm.None?
    ensures Leads(Filling(db, es), [Rotate], Rotated(db, es))
  {
    OneStep(Filling(db, es), Rotate, Rotated(db, es));
  }

  lemma FlushStep(db: DB, es: seq<Entry>, f: File, level: nat, w: Version)
    requires Sound(Rotated(db, es)) && Fillable(db, es, f, level, w)
    ensures Leads(Rotated(db, es), [Flush(f, level, w)], Flushing(db, es, w))
  {
    assert LevelEdited(db.version.files[level], [], [f], w.files[level]);
    assert FlushesTo(Rotated(db, es), f, level, w);
    OneStep(Rotated(db, es), Flush(f, level, w), Flushing(db, es, w));
  }

  lemma FillAndFlush(db: DB, es: seq<Entry>, f: File, level: nat, w: Version)
    requires Sound(db) && Fillable(db, es, f, level, w)
    ensures Leads(db, FillSteps(es, f, level, w), Flushing(db, es, w))
  {
    FillStep(db, es);
    RotateStep(db, es);
    FlushStep(db, es, f, level, w);
    Join(db, [Write(es)], Filling(db, es), [Rotate], Rotated(db, es));
    Join(db, [Write(es)] + [Rotate], Rotated(db, es), [Flush(f, level, w)], Flushing(db, es, w));
  }

  // ----- the compaction that cuts between two versions -----

  lemma CutIsChosen()
    ensures Chosen(FLUSHED2, 1, [TABLE2], [TABLE1])
  {
    var r := Range(Some(1.0), Some(2.0));
    assert TABLE2 in [TABLE2];
    assert [TABLE1][..0] == [] && Selected([TABLE1], r) == [TABLE1];
    assert CoveredBy([TABLE2], FLUSHED2.files[2], [TABLE1], r);
  }

  lemma CutMerge()
    ensures IsMerge(SECOND + FIRST, [TABLE2], [TABLE1])
  {
    var touched := ToSet([TABLE2]) + ToSet([TABLE1]);
    assert TABLE2 in touched && TABLE1 in touched;
    assert forall e :: e in SECOND + FIRST <==> e in SECOND || e in FIRST;
    assert Elements(SECOND + FIRST) == EntriesOf(touched);
  }

  lemma CutKeepsAll()
    ensures Kept(FLUSHED2, 1, SECOND + FIRST, 3, 1) == SECOND + FIRST
  {
    var input := SECOND + FIRST;
    assert input == [SECOND[0], SECOND[1], FIRST[0]];
    assert Kept(FLUSHED2, 1, input, 1, 1) == [SECOND[0]];
    assert Kept(FLUSHED2, 1, input, 2, 1) == [SECOND[0], SECOND[1]];
  }

  lemma CutOutputs()
    ensures Flatten([PARENT, SPLIT_OFF]) == SECOND + FIRST && AllValid([PARENT, SPLIT_OFF])
  {
    FlattenTwo(PARENT, SPLIT_OFF);
  }

  lemma FlattenTwo(f: File, g: File)
    ensures Flatten([f, g]) == f.entries + g.entries
  {
    assert [f, g][..1] == [f] && [f][..0] == [];
    assert Flatten([f]) == [] + f.entries == f.entries;
  }

  lemma CutInstalls()
    ensures Compacted(FLUSHED2, 1, [TABLE2], [TABLE1], [PARENT, SPLIT_OFF], CUT)
  {
    assert forall f :: f in CUT.files[2] <==> f == PARENT || f == SPLIT_OFF;
  }

  lemma CutLeads()
    requires Sound(STATE7)
    ensures Leads(STATE7, [CUT_STEP], STATE8)
  {
    CutIsChosen();
    CutMerge();
    CutKeepsAll();
    CutOutputs();
    CutInstalls();
    OneStep(STATE7, CUT_STEP, STATE8);
  }

  // ----- the compaction that loses the marker -----

  lemma LoseIsChosen()
    ensures Chosen(EXPOSED, 1, [UPPER], [PARENT])
  {
    var r, parents := Range(Some(1.0), Some(1.0)), EXPOSED.files[2];
    assert UPPER in [UPPER];
    assert parents == [PARENT, SPLIT_OFF];
    assert parents[..1] == [PARENT] && parents[..1][..0] == [];
    assert Selected(parents[..1], r) == [PARENT];
    assert CoveredBy([UPPER], parents, [PARENT], r);
  }

  lemma LoseMerge()
    ensures IsMerge(THIRD + SECOND, [UPPER], [PARENT])
  {
    var touched := ToSet([UPPER]) + ToSet([PARENT]);
    assert UPPER in touched && PARENT in touched;
    assert forall e :: e in THIRD + SECOND <==> e in THIRD || e in SECOND;
    assert Elements(THIRD + SECOND) == EntriesOf(touched);
  }

  lemma LoseKeepsUpper()
    ensures Kept(EXPOSED, 1, THIRD + SECOND, 3, 4) == THIRD
  {
    var input := THIRD + SECOND;
    assert input == [THIRD[0], SECOND[0], SECOND[1]];
    assert BaseLevel(EXPOSED, 1, 2.0);
    assert Kept(EXPOSED, 1, input, 1, 4) == [THIRD[0]];
    assert Kept(EXPOSED, 1, input, 2, 4) == [THIRD[0]];
  }

  lemma LoseOutputs()
    ensures Flatten([TABLE6]) == THIRD && AllValid([TABLE6])
  {
    assert [TABLE6][..0] == [];
  }

  lemma LoseInstalls()
    ensures Compacted(EXPOSED, 1, [UPPER], [PARENT], [TABLE6], LOST)
  {
    assert forall f :: f in LOST.files[2] <==> f == TABLE6 || f == SPLIT_OFF;
    assert forall f :: f in EXPOSED.files[2] <==> f == PARENT || f == SPLIT_OFF;
  }

  lemma LoseRan()
    requires ValidVersion(EXPOSED)
    ensures RanCompaction(EXPOSED, 1, [UPPER], [PARENT], THIRD + SECOND, 4, [TABLE6], LOST)
  {
    LoseIsChosen();
    LoseMerge();
    LoseKeepsUpper();
    LoseOutputs();
    LoseInstalls();
  }

  lemma LoseLeads()
    requires Sound(STATE12)
    ensures Leads(STATE12, [LOSE_STEP], STATE13)
  {
    LoseRan();
    OneStep(STATE12, LOSE_STEP, STATE13);
  }

  // ----- the run -----

  const SEEN := STATE3.(snapshots := [1])
  const FREE := STATE8.(snapshots := [])

  const TO_FIRST := FillSteps(FIRST, TABLE1, 2, FLUSHED1)
  const TO_SECOND := FillSteps(SECOND, TABLE2, 1, FLUSHED2)
  const TO_EXPOSED := FillSteps(THIRD, UPPER, 1, EXPOSED)

  lemma FirstIsFillable()
    ensures Fillable(EMPTY, FIRST, TABLE1, 2, FLUSHED1)
  {}

  lemma SecondIsFillable()
    ensures Fillable(SEEN, SECOND, TABLE2, 1, FLUSHED2)
  {}

  lemma ToFirst()
    ensures Leads(EMPTY, TO_FIRST, STATE3)
  {
    EmptyInv();
    FirstIsFillable();
    FillAndFlush(EMPTY, FIRST, TABLE1, 2, FLUSHED1);
  }

  lemma ToSeen()
    requires Sound(STATE3)
    ensures Leads(STATE3, [Snapshot], SEEN)
  {
    OneStep(STATE3, Snapshot, SEEN);
  }

  lemma ToSecond()
    requires Sound(SEEN)
    ensures Leads(SEEN, TO_SECOND, STATE7)
  {
    SecondIsFillable();
    FillAndFlush(SEEN, SECOND, TABLE2, 1, FLUSHED2);
  }

  lemma ToFree()
    requires Sound(STATE8)
    ensures Leads(STATE8, [Release(0)], FREE)
  {
    assert [1][..0] + [1][1..] == [];
    OneStep(STATE8, Release(0), FREE);
  }

  lemma ToExposed()
    requires Sound(FREE)
    ensures Leads(FREE, TO_EXPOSED, STATE12)
  {
    FillAndFlush(FREE, THIRD, UPPER, 1, EXPOSED);
  }

  const TO_CUT := TO_FIRST + [Snapshot] + TO_SECOND + [CUT_STEP]
  const RUN := TO_CUT + [Release(0)] + TO_EXPOSED

  lemma RunToCut()
    ensures Leads(EMPTY, TO_CUT, STATE8)
  {
    ToFirst();
    ToSeen();
    Join(EMPTY, TO_FIRST, STATE3, [Snapshot], SEEN);
    ToSecond();
    Join(EMPTY, TO_FIRST + [Snapshot], SEEN, TO_SECOND, STATE7);
    CutLeads();
    Join(EMPTY, TO_FIRST + [Snapshot] + TO_SECOND, STATE7, [CUT_STEP], STATE8);
  }

  lemma RunToExposed()
    ensures Leads(EMPTY, RUN, STATE12)
  {
    RunToCut();
    ToFree();
    Join(EMPTY, TO_CUT, STATE8, [Release(0)], FREE);
    ToExposed();
    Join(EMPTY, TO_CUT + [Release(0)], FREE, TO_EXPOSED, STATE12);
  }

  /** The last entry of a key is a marker that the snapshot sees. */
  lemma LastIsMarker(es: seq<Entry>, i: nat, high: SequenceNumber)
    requires Rising(es, 0, high) && i < |es| && es[i].key.kind.Deletion?
    requires forall j :: i < j < |es| ==> es[j].key.user != es[i].key.user
    ensures Answer(AsSet(es), es[i].key.user, high) == None
  {
    assert IsNewest(AsSet(es), es[i].key.user, high, es[i]);
    RisingIsDistinct(es, 0, high);
    AnswerIs(AsSet(es), es[i].key.user, high, es[i]);
  }

  lemma NothingWritten()
    ensures Answer(AsSet(STATE13.all), 2.0, 4) == None
  {
    LastIsMarker(STATE13.all, 2, 4);
  }

  lemma LostAnswers()
    requires Sound(STATE12)
    ensures Answer(Store(STATE13), 2.0, 4) == Some([42])
  {
    LoseRan();
    ResurrectionHappens([UPPER], [PARENT], THIRD + SECOND, 4, [TABLE6], LOST);
    assert Store(STATE13) == VersionEntries(LOST);
  }

  /** The version on which a compaction harms reads is reached by a run, the compaction
      is a step of it, and afterwards the deleted key reads 42 again. */
  lemma DeletedKeyComesBack()
    ensures Legal(EMPTY, RUN) && Final(EMPTY, RUN).version == EXPOSED
    ensures Legal(EMPTY, RUN + [LOSE_STEP]) && !HarmlessRun(EMPTY, RUN + [LOSE_STEP])
    ensures var db := Final(EMPTY, RUN + [LOSE_STEP]);
            db.last == 4 && Databases.Get(db, 2.0, 4) == Some([42]) && Answer(AsSet(db.all), 2.0, 4) == None
  {
    RunToExposed();
    LoseLeads();
    Join(EMPTY, RUN, STATE12, [LOSE_STEP], STATE13);
    ReadsSurvive(RUN + [LOSE_STEP], 2.0, 4);
    NothingWritten();
    LostAnswers();
  }
}
