/** Recovering the current version from a manifest (db/version_set.cc Recover,
    LogAndApply): the log, the edits' encoding and the builder together. */
module Recovery {
  import opened Keys
  import opened Lookup
  import opened Versions
  import opened Manifest
  import VersionEdits
  import Log
  import LogRoundTrip

  type Record = VersionEdits.VersionEdit

  /** The four counters an edit may carry; the last one written stands. */
  datatype Counters = Counters(log: Option<nat>, prevLog: Option<nat>, nextFile: Option<nat>, lastSequence: Option<nat>)

  function Latest(before: Option<nat>, written: Option<nat>): (r: Option<nat>) {
    if written.Some? then written else before
  }

  function Noted(c: Counters, e: Record): (r: Counters) {
    Counters(Latest(c.log, e.logNumber), Latest(c.prevLog, e.prevLogNumber),
             Latest(c.nextFile, e.nextFile), Latest(c.lastSequence, e.lastSequence))
  }

  const NO_COUNTERS := Counters(None, None, None, None)

  function CountersOf(es: seq<Record>): (r: Counters) {
    if es == [] then NO_COUNTERS else Noted(CountersOf(es[..|es| - 1]), es[|es| - 1])
  }

  /** The file changes of an edit; `load` finds the table file a record names. */
  function Loaded(e: Record, load: VersionEdits.Meta -> File): (r: Edit) {
    Edit(e.deletedFiles, seq(|e.newFiles|, i requires 0 <= i < |e.newFiles| => (e.newFiles[i].0, load(e.newFiles[i].1))))
  }

  function AllLoaded(es: seq<Record>, load: VersionEdits.Meta -> File): (r: seq<Edit>)
    ensures |r| == |es| && forall i :: 0 <= i < |es| ==> r[i] == Loaded(es[i], load)
  {
    seq(|es|, i requires 0 <= i < |es| => Loaded(es[i], load))
  }

  predicate Comparable(e: Record, comparator: Bytes) {
    e.comparator.Some? ==> e.comparator.value == comparator
  }

  /** The edit a record spells, unless it cannot be used. */
  function EditOf(record: Bytes, comparator: Bytes): (r: Option<Record>) {
    match VersionEdits.Decode(record, VersionEdits.EMPTY)
    case Corruption(_) => None
    case Ok(e) => if Comparable(e, comparator) then Some(e) else None
  }

  function Decodings(records: seq<Bytes>, comparator: Bytes): (ds: seq<Option<Record>>)
    ensures |ds| == |records| && forall i :: 0 <= i < |ds| ==> ds[i] == EditOf(records[i], comparator)
  {
    seq(|records|, i requires 0 <= i < |records| => EditOf(records[i], comparator))
  }

  /** All the edits, if each is there. */
  function Collect(ds: seq<Option<Record>>): (r: Option<seq<Record>>) {
    if ds == [] then Some([])
    else
      match (Collect(ds[..|ds| - 1]), ds[|ds| - 1])
      case (Some(es), Some(e)) => Some(es + [e])
      case _ => None
  }

  lemma CollectStep(ds: seq<Option<Record>>, i: nat)
    requires i < |ds|
    ensures Collect(ds[..i + 1]) ==
            match (Collect(ds[..i]), ds[i])
            case (Some(es), Some(e)) => Some(es + [e])
            case _ => None
  {
    assert ds[..i + 1][..i] == ds[..i];
  }

  lemma {:induction false} CollectBroken(ds: seq<Option<Record>>, i: nat)
    requires i < |ds| && ds[i].None?
    ensures Collect(ds).None?
    decreases |ds|
  {
    if i < |ds| - 1 { CollectBroken(ds[..|ds| - 1], i); }
  }

  lemma {:induction false} CollectAll(ds: seq<Option<Record>>, es: seq<Record>)
    requires |ds| == |es| && forall i :: 0 <= i < |ds| ==> ds[i] == Some(es[i])
    ensures Collect(ds) == Some(es)
    decreases |ds|
  {
    if ds != [] {
      CollectAll(ds[..|ds| - 1], es[..|es| - 1]);
      assert es == es[..|es| - 1] + [es[|es| - 1]];
    }
  }

  datatype Recovered =
    | Failed
    | Recovered(version: Version, lastSequence: nat, logNumber: nat, prevLogNumber: nat, manifestFile: nat, nextFile: nat)

  function WithCounters(v: Version, c: Counters): (r: Recovered) {
    if c.nextFile.None? || c.log.None? || c.lastSequence.None? then Failed
    else
      Recovered(v, c.lastSequence.value, c.log.value, if c.prevLog.Some? then c.prevLog.value else 0,
                c.nextFile.value, c.nextFile.value + 1)
  }

  const NO_FILES := Version([[], [], [], [], [], [], []])

  ghost function Built(es: seq<Edit>): (r: Version) {
    Version(seq(NUM_LEVELS, l requires 0 <= l < NUM_LEVELS => Save([], ApplyAll(EditsAt(es, l)))))
  }

  /** The version after each edit was applied and installed on its own. */
  ghost function Installed(es: seq<Edit>): (r: Version) {
    Version(seq(NUM_LEVELS, l requires 0 <= l < NUM_LEVELS => History([], EditsAt(es, l))))
  }

  ghost function Outcome(contents: LogRoundTrip.Contents, comparator: Bytes, load: VersionEdits.Meta -> File): (r: Recovered) {
    match Collect(Decodings(contents.records, comparator))
    case None => Failed
    case Some(es) => if contents.drops != [] then Failed else WithCounters(Built(AllLoaded(es, load)), CountersOf(es))
  }

  // ----- what the counters come to -----

  function Carried(e: Record, c: VersionEdits.Counter): (r: Option<nat>) {
    match c
    case LogNumber => e.logNumber
    case PrevLogNumber => e.prevLogNumber
    case NextFileNumber => e.nextFile
    case LastSequence => e.lastSequence
  }

  /** The last of the edits to carry the counter carries `n`. */
  ghost predicate LastCarries(es: seq<Record>, c: VersionEdits.Counter, n: nat) {
    exists j :: 0 <= j < |es| && Carried(es[j], c) == Some(n) && NoneAfter(es, c, j)
  }

  ghost predicate NoneAfter(es: seq<Record>, c: VersionEdits.Counter, j: int) {
    forall i :: j < i < |es| && 0 <= i ==> Carried(es[i], c).None?
  }

  /** No edit carries the counter. */
  ghost predicate NoneCarries(es: seq<Record>, c: VersionEdits.Counter) {
    NoneAfter(es, c, -1)
  }

  /** What a recovery from these edits comes to, given the version they build: each
      counter as the last edit that carries it says. */
  ghost predicate Restores(es: seq<Record>, v: Version, r: Recovered) {
    match r
    case Failed =>
      NoneCarries(es, VersionEdits.NextFileNumber) || NoneCarries(es, VersionEdits.LogNumber) || NoneCarries(es, VersionEdits.LastSequence)
    case Recovered(version, lastSequence, logNumber, prevLogNumber, manifestFile, nextFile) =>
      version == v && LastCarries(es, VersionEdits.LastSequence, lastSequence) && LastCarries(es, VersionEdits.LogNumber, logNumber) &&
      (LastCarries(es, VersionEdits.PrevLogNumber, prevLogNumber) ||
       (NoneCarries(es, VersionEdits.PrevLogNumber) && prevLogNumber == 0)) &&
      LastCarries(es, VersionEdits.NextFileNumber, manifestFile) && nextFile == manifestFile + 1
  }

  function Counted(c: Counters, counter: VersionEdits.Counter): (r: Option<nat>) {
    match counter
    case LogNumber => c.log
    case PrevLogNumber => c.prevLog
    case NextFileNumber => c.nextFile
    case LastSequence => c.lastSequence
  }

  lemma {:induction false} CountersAreLast(es: seq<Record>, c: VersionEdits.Counter)
    ensures var o := Counted(CountersOf(es), c); if o.Some? then LastCarries(es, c, o.value) else NoneCarries(es, c)
    decreases |es|
  {
    if es != [] {
      var n := |es| - 1;
      var front := es[..n];
      CountersAreLast(front, c);
      var before := Counted(CountersOf(front), c);
      if Carried(es[n], c).Some? {
        assert NoneAfter(es, c, n);
      } else if before.Some? {
        var j :| 0 <= j < n && Carried(front[j], c) == before && NoneAfter(front, c, j);
        assert Carried(es[j], c) == before && NoneAfter(es, c, j);
      }
    }
  }

  /** A counter has one last value. */
  lemma LastIsOne(es: seq<Record>, c: VersionEdits.Counter, m: nat, n: nat)
    requires LastCarries(es, c, m) && (LastCarries(es, c, n) || NoneCarries(es, c))
    ensures m == n && !NoneCarries(es, c)
  {
    var i :| 0 <= i < |es| && Carried(es[i], c) == Some(m) && NoneAfter(es, c, i);
    if LastCarries(es, c, n) {
      var j :| 0 <= j < |es| && Carried(es[j], c) == Some(n) && NoneAfter(es, c, j);
      assert i == j;
    }
  }

  /** Edits and the version they build leave one outcome. */
  lemma OneOutcome(es: seq<Record>, v: Version, q: Recovered, r: Recovered)
    requires Restores(es, v, q) && Restores(es, v, r)
    ensures q == r
  {
    if q.Recovered? && r.Recovered? {
      LastIsOne(es, VersionEdits.LastSequence, q.lastSequence, r.lastSequence);
      LastIsOne(es, VersionEdits.LogNumber, q.logNumber, r.logNumber);
      LastIsOne(es, VersionEdits.NextFileNumber, q.manifestFile, r.manifestFile);
      if LastCarries(es, VersionEdits.PrevLogNumber, q.prevLogNumber) {
        LastIsOne(es, VersionEdits.PrevLogNumber, q.prevLogNumber, r.prevLogNumber);
      } else if LastCarries(es, VersionEdits.PrevLogNumber, r.prevLogNumber) {
        LastIsOne(es, VersionEdits.PrevLogNumber, r.prevLogNumber, q.prevLogNumber);
      }
    } else if q.Recovered? {
      NeverBoth(es, v, q, r);
    } else if r.Recovered? {
      NeverBoth(es, v, r, q);
    }
  }

  lemma NeverBoth(es: seq<Record>, v: Version, q: Recovered, r: Recovered)
    requires Restores(es, v, q) && Restores(es, v, r)
    ensures !(q.Recovered? && r.Failed?)
  {
    if q.Recovered? {
      LastIsOne(es, VersionEdits.LastSequence, q.lastSequence, q.lastSequence);
      LastIsOne(es, VersionEdits.LogNumber, q.logNumber, q.logNumber);
      LastIsOne(es, VersionEdits.NextFileNumber, q.manifestFile, q.manifestFile);
    }
  }

  lemma CountersRestore(es: seq<Record>, v: Version)
    ensures Restores(es, v, WithCounters(v, CountersOf(es)))
  {
    CountersAreLast(es, VersionEdits.LogNumber);
    CountersAreLast(es, VersionEdits.PrevLogNumber);
    CountersAreLast(es, VersionEdits.NextFileNumber);
    CountersAreLast(es, VersionEdits.LastSequence);
  }

  /** What a manifest's records, and what was reported in reading them, make of a
      recovery: failure on any report or any record that is no usable edit. */
  ghost predicate Understood(contents: LogRoundTrip.Contents, comparator: Bytes, load: VersionEdits.Meta -> File, r: Recovered) {
    if contents.drops != [] || exists i :: 0 <= i < |contents.records| && EditOf(contents.records[i], comparator).None? then r == Failed
    else exists es :: Spell(contents.records, comparator, es) && Restores(es, Built(AllLoaded(es, load)), r)
  }

  /** The records spell these edits. */
  ghost predicate Spell(records: seq<Bytes>, comparator: Bytes, es: seq<Record>) {
    |es| == |records| && forall i :: 0 <= i < |es| ==> EditOf(records[i], comparator) == Some(es[i])
  }

  lemma {:induction false} CollectSpells(ds: seq<Option<Record>>)
    requires Collect(ds).Some?
    ensures |Collect(ds).value| == |ds| && forall i :: 0 <= i < |ds| ==> ds[i] == Some(Collect(ds).value[i])
    decreases |ds|
  {
    if ds != [] { CollectSpells(ds[..|ds| - 1]); }
  }

  lemma {:induction false} CollectFails(ds: seq<Option<Record>>)
    requires Collect(ds).None?
    ensures exists i :: 0 <= i < |ds| && ds[i].None?
    decreases |ds|
  {
    if Collect(ds[..|ds| - 1]).None? {
      CollectFails(ds[..|ds| - 1]);
      var i :| 0 <= i < |ds| - 1 && ds[..|ds| - 1][i].None?;
      assert ds[i].None?;
    }
  }

  lemma OutcomeIsUnderstood(contents: LogRoundTrip.Contents, comparator: Bytes, load: VersionEdits.Meta -> File)
    ensures Understood(contents, comparator, load, Outcome(contents, comparator, load))
  {
    var ds := Decodings(contents.records, comparator);
    if Collect(ds).None? {
      CollectFails(ds);
    } else {
      CollectSpells(ds);
      var es := Collect(ds).value;
      assert Spell(contents.records, comparator, es);
      CountersRestore(es, Built(AllLoaded(es, load)));
    }
  }

  // ----- decoded levels -----

  ghost predicate LevelsInRange(e: Record) {
    (forall d :: d in e.deletedFiles ==> d.0 < NUM_LEVELS) && forall i :: 0 <= i < |e.newFiles| ==> e.newFiles[i].0 < NUM_LEVELS
  }

  lemma FieldLevel(input: Bytes, e: Record)
    requires LevelsInRange(e) && VersionEdits.ReadField(input).Read?
    ensures LevelsInRange(VersionEdits.ApplyField(e, VersionEdits.ReadField(input).field))
  {}

  /** The decoder lets no level out of range through. */
  lemma {:induction false} DecodedLevels(input: Bytes, e: Record)
    requires LevelsInRange(e) && VersionEdits.Decode(input, e).Ok?
    ensures LevelsInRange(VersionEdits.Decode(input, e).edit)
    decreases |input|
  {
    match VersionEdits.ReadField(input)
    case NoTag =>
    case Malformed(_) =>
    case Read(f, rest) =>
      FieldLevel(input, e);
      DecodedLevels(rest, VersionEdits.ApplyField(e, f));
  }

  // ----- recovery -----

  lemma AppliesOneMore(es: seq<Record>, e: Record, load: VersionEdits.Meta -> File)
    ensures forall l :: ApplyAll(EditsAt(AllLoaded(es + [e], load), l)) ==
                        ApplyEdit(ApplyAll(EditsAt(AllLoaded(es, load), l)), EditAt(Loaded(e, load), l))
    ensures CountersOf(es + [e]) == Noted(CountersOf(es), e)
  {
    forall l ensures ApplyAll(EditsAt(AllLoaded(es + [e], load), l)) ==
                     ApplyEdit(ApplyAll(EditsAt(AllLoaded(es, load), l)), EditAt(Loaded(e, load), l))
    {
      var all := EditsAt(AllLoaded(es + [e], load), l);
      assert all[..|es|] == EditsAt(AllLoaded(es, load), l);
    }
    assert (es + [e])[..|es|] == es;
  }

  method ReadEdit(record: Bytes, comparator: Bytes) returns (o: Option<Record>)
    ensures o == EditOf(record, comparator) && (o.Some? ==> LevelsInRange(o.value))
  {
    var d := VersionEdits.DecodeFrom(record);
    if d.Corruption? || !Comparable(d.edit, comparator) {
      return None;
    }
    DecodedLevels(record, VersionEdits.EMPTY);
    o := Some(d.edit);
  }

  ghost predicate Holds(levels: seq<LevelState>, es: seq<Record>, load: VersionEdits.Meta -> File) {
    |levels| == NUM_LEVELS && forall l :: 0 <= l < NUM_LEVELS ==> levels[l] == ApplyAll(EditsAt(AllLoaded(es, load), l))
  }

  method ApplyOne(builder: Builder, e: Record, load: VersionEdits.Meta -> File, ghost es: seq<Record>)
    requires Holds(builder.levels, es, load) && LevelsInRange(e)
    modifies builder
    ensures Holds(builder.levels, es + [e], load)
  {
    AppliesOneMore(es, e, load);
    builder.Apply(Loaded(e, load));
  }

  /** VersionSet::Recover on the contents of the manifest CURRENT names. */
  method Recover(manifest: Bytes, comparator: Bytes, load: VersionEdits.Meta -> File) returns (r: Recovered)
    ensures Understood(LogRoundTrip.ReadAll(Log.State([], manifest, false), []), comparator, load, r)
    ensures r == Outcome(LogRoundTrip.ReadAll(Log.State([], manifest, false), []), comparator, load)
  {
    OutcomeIsUnderstood(LogRoundTrip.ReadAll(Log.State([], manifest, false), []), comparator, load);
    var builder := new Builder(NO_FILES);
    var c := NO_COUNTERS;
    var records, reports := LogRoundTrip.ReadLog(manifest);
    ghost var ds, es := Decodings(records, comparator), [];
    for i := 0 to |records|
      invariant Collect(ds[..i]) == Some(es) && c == CountersOf(es)
      invariant builder.base == NO_FILES && fresh(builder) && Holds(builder.levels, es, load)
    {
      CollectStep(ds, i);
      var e := ReadEdit(records[i], comparator);
      if e.None? {
        CollectBroken(ds, i);
        return Failed;
      }
      AppliesOneMore(es, e.value, load);
      ApplyOne(builder, e.value, load, es);
      c, es := Noted(c, e.value), es + [e.value];
    }
    assert ds[..|records|] == ds;
    r := Finish(builder, c, reports, load, es);
  }

  method Finish(builder: Builder, c: Counters, reports: seq<nat>, load: VersionEdits.Meta -> File, ghost es: seq<Record>)
    returns (r: Recovered)
    requires builder.base == NO_FILES && Holds(builder.levels, es, load) && c == CountersOf(es)
    ensures r == if reports != [] then Failed else WithCounters(Built(AllLoaded(es, load)), CountersOf(es))
  {
    if reports != [] {
      return Failed;
    }
    var v := builder.SaveTo();
    assert v.files == Built(AllLoaded(es, load)).files;
    r := WithCounters(v, c);
  }

  // ----- the manifest of a run -----

  /** The records LogAndApply added; `orders` are the orders in which the sets of
      deleted files were walked. */
  function Encoded(es: seq<Record>, orders: seq<seq<(nat, nat)>>): (records: seq<Bytes>)
    requires |orders| == |es|
    ensures |records| == |es|
    ensures forall i :: 0 <= i < |es| ==> records[i] == VersionEdits.EncodeFields(VersionEdits.FieldsOf(es[i], orders[i]))
  {
    seq(|es|, i requires 0 <= i < |es| => VersionEdits.EncodeFields(VersionEdits.FieldsOf(es[i], orders[i])))
  }

  ghost predicate WellFormed(es: seq<Record>, orders: seq<seq<(nat, nat)>>, comparator: Bytes) {
    |orders| == |es| &&
    forall i :: 0 <= i < |es| ==> VersionEdits.ValidEdit(es[i], orders[i]) && Comparable(es[i], comparator)
  }

  lemma DecodesOne(e: Record, order: seq<(nat, nat)>, comparator: Bytes)
    requires VersionEdits.ValidEdit(e, order) && Comparable(e, comparator)
    ensures EditOf(VersionEdits.EncodeFields(VersionEdits.FieldsOf(e, order)), comparator) == Some(e)
  {
    VersionEdits.EditRoundTrip(e, order);
  }

  lemma DecodesAll(es: seq<Record>, orders: seq<seq<(nat, nat)>>, comparator: Bytes, k: nat)
    requires WellFormed(es, orders, comparator) && k <= |es|
    ensures Collect(Decodings(Encoded(es, orders)[..k], comparator)) == Some(es[..k])
  {
    var ds := Decodings(Encoded(es, orders)[..k], comparator);
    forall i | 0 <= i < k ensures ds[i] == Some(es[..k][i]) {
      DecodesOne(es[i], orders[i], comparator);
    }
    CollectAll(ds, es[..k]);
  }

  lemma {:induction false} NeverReaddedPrefix(base: seq<File>, es: seq<LevelEdit>, k: nat)
    requires NeverReadded(base, es) && k <= |es|
    ensures NeverReadded(base, es[..k])
    decreases |es|
  {
    if k == |es| {
      assert es[..k] == es;
    } else {
      assert es[..|es| - 1][..k] == es[..k];
      NeverReaddedPrefix(base, es[..|es| - 1], k);
    }
  }

  lemma BuiltIsInstalled(es: seq<Record>, load: VersionEdits.Meta -> File, k: nat)
    requires CleanHistory(NO_FILES, AllLoaded(es, load)) && k <= |es|
    ensures Built(AllLoaded(es[..k], load)) == Installed(AllLoaded(es[..k], load))
  {
    forall l: nat | l < NUM_LEVELS
      ensures Save([], ApplyAll(EditsAt(AllLoaded(es[..k], load), l))) == History([], EditsAt(AllLoaded(es[..k], load), l))
    {
      var all := EditsAt(AllLoaded(es, load), l);
      assert NO_FILES.files[l] == [];
      assert EditsAt(AllLoaded(es[..k], load), l) == all[..k];
      NeverReaddedPrefix([], all, k);
      ReplayEqualsHistory([], all[..k]);
    }
  }

  /** Edit `j` adds `f` to level `l`. */
  ghost predicate AddsFile(es: seq<Record>, load: VersionEdits.Meta -> File, j: nat, l: nat, f: File) {
    j < |es| && exists i :: 0 <= i < |es[j].newFiles| && es[j].newFiles[i].0 == l && load(es[j].newFiles[i].1) == f
  }

  lemma {:induction false} AddedAtHolds(added: seq<(nat, File)>, l: nat, f: File)
    ensures f in AddedAt(added, l) <==> exists i :: 0 <= i < |added| && added[i].0 == l && added[i].1 == f
  {
    if added != [] {
      var front, last := added[..|added| - 1], added[|added| - 1];
      AddedAtHolds(front, l, f);
      if last.0 == l && last.1 == f { assert added[|added| - 1] == last; }
      if f in AddedAt(front, l) {
        var i :| 0 <= i < |front| && front[i].0 == l && front[i].1 == f;
        assert added[i] == front[i];
      }
      if i :| 0 <= i < |added| && added[i].0 == l && added[i].1 == f {
        if i < |front| { assert front[i] == added[i]; }
      }
    }
  }

  lemma EditHolds(es: seq<Record>, load: VersionEdits.Meta -> File, j: nat, l: nat, f: File)
    requires j < |es|
    ensures var e := EditsAt(AllLoaded(es, load), l)[j];
            (f in e.added <==> AddsFile(es, load, j, l, f)) && (f.number in e.deleted <==> (l, f.number) in es[j].deletedFiles)
  {
    var added := Loaded(es[j], load).added;
    AddedAtHolds(added, l, f);
    if AddsFile(es, load, j, l, f) {
      var i :| 0 <= i < |es[j].newFiles| && es[j].newFiles[i].0 == l && load(es[j].newFiles[i].1) == f;
      assert added[i].0 == l && added[i].1 == f;
    }
    if i :| 0 <= i < |added| && added[i].0 == l && added[i].1 == f {
      assert es[j].newFiles[i].0 == l && load(es[j].newFiles[i].1) == f;
    }
    assert (l, f.number) in es[j].deletedFiles ==> (l, f.number).1 in DeletedAt(es[j].deletedFiles, l);
  }

  /** Edit `j` adds `f` to level `l`, and no later one deletes its number from there. */
  ghost predicate AddsForGood(es: seq<Record>, load: VersionEdits.Meta -> File, j: nat, l: nat, f: File) {
    AddsFile(es, load, j, l, f) && forall h :: j < h < |es| ==> (l, f.number) !in es[h].deletedFiles
  }

  lemma EditsHold(es: seq<Record>, load: VersionEdits.Meta -> File, j: nat, l: nat, f: File)
    requires j < |es|
    ensures var all := EditsAt(AllLoaded(es, load), l);
            AddsForGood(es, load, j, l, f) <==> f in all[j].added && NotDeleted(all, j + 1, f.number)
  {
    var all := EditsAt(AllLoaded(es, load), l);
    EditHolds(es, load, j, l, f);
    forall h | j < h < |es| ensures f.number in all[h].deleted <==> (l, f.number) in es[h].deletedFiles {
      EditHolds(es, load, h, l, f);
    }
  }

  /** What the recovered version holds: a file is at level `l` exactly when some edit
      adds it there for good. */
  lemma InstalledHolds(es: seq<Record>, load: VersionEdits.Meta -> File, l: nat, f: File)
    requires CleanHistory(NO_FILES, AllLoaded(es, load)) && l < NUM_LEVELS
    ensures f in Installed(AllLoaded(es, load)).files[l] <==> exists j :: 0 <= j < |es| && AddsForGood(es, load, j, l, f)
  {
    var all := EditsAt(AllLoaded(es, load), l);
    assert NO_FILES.files[l] == [];
    HistoryHolds([], all);
    if Stands([], all, f) {
      var j :| 0 <= j < |all| && f in all[j].added && NotDeleted(all, j + 1, f.number);
      EditsHold(es, load, j, l, f);
    }
    if j :| 0 <= j < |es| && AddsForGood(es, load, j, l, f) {
      EditsHold(es, load, j, l, f);
    }
  }

  /** An edit of another comparator makes recovery fail. */
  lemma OtherComparatorFails(es: seq<Record>, orders: seq<seq<(nat, nat)>>, comparator: Bytes,
                             load: VersionEdits.Meta -> File, i: nat)
    requires |orders| == |es| && forall j :: 0 <= j < |es| ==> VersionEdits.ValidEdit(es[j], orders[j])
    requires i < |es| && es[i].comparator.Some? && es[i].comparator.value != comparator
    ensures Outcome(LogRoundTrip.ReadAll(Log.State([], LogRoundTrip.LogOf(Encoded(es, orders)), false), []), comparator, load) == Failed
  {
    var records := Encoded(es, orders);
    LogRoundTrip.LogRoundTrip(records);
    VersionEdits.EditRoundTrip(es[i], orders[i]);
    CollectBroken(Decodings(records, comparator), i);
  }

  /** A crash after any byte of the manifest: recovery gives the version, and the
      counters, that the edits wholly written had led to. */
  lemma RecoversLastInstalled(es: seq<Record>, orders: seq<seq<(nat, nat)>>, comparator: Bytes,
                              load: VersionEdits.Meta -> File, n: nat)
    requires WellFormed(es, orders, comparator) && CleanHistory(NO_FILES, AllLoaded(es, load))
    requires n <= |LogRoundTrip.LogOf(Encoded(es, orders))|
    ensures var manifest := LogRoundTrip.LogOf(Encoded(es, orders));
            var k := LogRoundTrip.Complete(0, Encoded(es, orders), n);
            k <= |es| &&
            Restores(es[..k], Installed(AllLoaded(es[..k], load)),
                     Outcome(LogRoundTrip.ReadAll(Log.State([], manifest[..n], false), []), comparator, load))
  {
    var k := LogRoundTrip.Complete(0, Encoded(es, orders), n);
    LogRoundTrip.CutLogReadsCompleteRecords(Encoded(es, orders), n);
    DecodesAll(es, orders, comparator, k);
    BuiltIsInstalled(es, load, k);
    CountersRestore(es[..k], Installed(AllLoaded(es[..k], load)));
  }
}
