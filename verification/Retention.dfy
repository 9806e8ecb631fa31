/** Which files may be deleted (db/db_impl.cc DeleteObsoleteFiles, CompactMemTable,
    WriteLevel0Table, MakeRoomForWrite, InstallCompactionResults, CleanupCompaction;
    db/version_set.cc LogAndApply, AddLiveFiles): a state machine of writers,
    readers and the one background thread, over logs, tables and the manifest. */
module Retention {
  import opened Keys
  import opened Lookup

  // ----- the collector -----

  datatype FileType = LogFile | DescriptorFile | TableFile | TempFile | CurrentFile | LockFile | InfoLogFile

  datatype FileName = FileName(kind: FileType, number: nat)

  datatype Numbers = Numbers(log: nat, prevLog: nat, manifest: nat)

  predicate Keep(f: FileName, live: set<nat>, at: Numbers) {
    match f.kind
    case LogFile => f.number >= at.log || f.number == at.prevLog
    case DescriptorFile => f.number >= at.manifest
    case TableFile => f.number in live
    case TempFile => f.number in live
    case CurrentFile => true
    case LockFile => true
    case InfoLogFile => true
  }

  /** The table numbers of a version, level by level. */
  type Tables = seq<seq<nat>>

  function NumbersIn(v: Tables): (r: set<nat>) {
    set l, n | 0 <= l < |v| && n in v[l] :: n
  }

  /** The tables that a linked version or an unfinished job needs. */
  function Live(versions: seq<Tables>, pending: set<nat>): (r: set<nat>) {
    pending + set v, n | v in versions && n in NumbersIn(v) :: n
  }

  lemma LiveStep(versions: seq<Tables>, i: nat, pending: set<nat>)
    requires i < |versions|
    ensures Live(versions[..i + 1], pending) == Live(versions[..i], pending) + NumbersIn(versions[i])
  {
    assert versions[..i + 1] == versions[..i] + [versions[i]];
  }

  method AddLiveFiles(versions: seq<Tables>, pending: set<nat>) returns (live: set<nat>)
    ensures live == Live(versions, pending)
  {
    live := pending;
    for i := 0 to |versions|
      invariant live == Live(versions[..i], pending)
    {
      var v := versions[i];
      LiveStep(versions, i, pending);
      ghost var before := live;
      for l := 0 to |v|
        invariant live == before + NumbersIn(v[..l])
      {
        assert v[..l + 1] == v[..l] + [v[l]];
        live := live + (set n | n in v[l]);
      }
      assert v[..|v|] == v;
    }
    assert versions[..|versions|] == versions;
  }

  method DeleteObsoleteFiles(files: seq<FileName>, versions: seq<Tables>, pending: set<nat>, at: Numbers, error: bool)
    returns (deleted: set<FileName>)
    ensures error ==> deleted == {}
    ensures forall f :: f in deleted ==> f in files && !f.kind.CurrentFile? && !f.kind.LockFile? && !f.kind.InfoLogFile?
    ensures forall f :: !error && f in files && f.kind.LogFile? ==> (f in deleted <==> f.number < at.log && f.number != at.prevLog)
    ensures forall f :: !error && f in files && f.kind.DescriptorFile? ==> (f in deleted <==> f.number < at.manifest)
    ensures forall f :: !error && f in files && (f.kind.TableFile? || f.kind.TempFile?) ==>
              (f in deleted <==> f.number !in pending && forall v, l :: v in versions && 0 <= l < |v| ==> f.number !in v[l])
  {
    deleted := {};
    if error {
      return;
    }
    var live := AddLiveFiles(versions, pending);
    for i := 0 to |files|
      invariant forall f :: f in deleted <==> f in files[..i] && !Keep(f, live, at)
    {
      assert files[..i + 1] == files[..i] + [files[i]];
      if !Keep(files[i], live, at) {
        deleted := deleted + {files[i]};
      }
    }
    assert files[..|files|] == files;
    forall n: nat ensures n in live <==> n in pending || exists v, l :: v in versions && 0 <= l < |v| && n in v[l] {
      LiveMeans(versions, pending, n);
    }
  }

  lemma LiveMeans(versions: seq<Tables>, pending: set<nat>, n: nat)
    ensures n in Live(versions, pending) <==> n in pending || exists v, l :: v in versions && 0 <= l < |v| && n in v[l]
  {
    if v, l :| v in versions && 0 <= l < |v| && n in v[l] {
      assert n in NumbersIn(v);
    }
  }

  // ----- the state -----

  /** What a manifest says: the tables, the oldest log still needed, and a log before it
      that is needed besides. */
  datatype View = View(tables: set<nat>, log: nat, prevLog: nat)

  /** How far the opening of the database has come, once the logs have been replayed: a
      manifest of its own, a file for CURRENT to be replaced by, and the replacement. */
  datatype Stage = Replayed | Created | Recorded | Renaming | Open

  datatype Kind = Flush | Merge | Move

  /** What the background thread is doing. */
  datatype Job =
    | NoJob
    | Building(n: nat)
    | Merging(inputs: set<nat>, outputs: set<nat>)
    | Installing(kind: Kind, next: View, inputs: set<nat>, outputs: set<nat>, written: bool)

  /** What the writer at the front of the queue is doing with the mutex released. */
  datatype Group = NoGroup | Group(entries: set<Entry>, logged: bool)

  type Files = map<nat, set<Entry>>

  /** Manifests and CURRENT: the manifest files, the number of the engine's own, the one
      that CURRENT names, temporary files, the stage of opening, the tables that the
      replayed logs became, and the previous log. */
  datatype Directory = Directory(
    manifests: map<nat, View>, own: nat, named: nat, temps: set<nat>, stage: Stage, replayed: set<nat>, prevLog: nat)

  datatype State = State(
    logs: Files, tables: Files, nextFile: nat, current: set<nat>, logNumber: nat, logFile: nat,
    mem: set<Entry>, imm: Option<set<Entry>>, immLog: nat, pending: set<nat>,
    dir: Directory, pins: map<nat, set<nat>>, job: Job, group: Group, error: bool, manifestFailed: bool,
    committed: set<Entry>, dropped: set<Entry>)

  /** What recovery would start from: the manifest that CURRENT names. */
  function DurableIn(d: Directory): (r: View) {
    if d.named in d.manifests then d.manifests[d.named] else View({}, 0, 0)
  }

  function Durable(s: State): (r: View) {
    DurableIn(s.dir)
  }

  /** A database as recovery leaves it, whatever else is in its directory: the manifest
      that CURRENT names is read, the logs it needs are written out as tables, and a new
      log is in place.  What had been committed is on disk. */
  ghost predicate Opening(s: State) {
    s.dir.stage.Replayed? && s.job.NoJob? && s.group.NoGroup? && !s.error && !s.manifestFailed && s.mem == {} && s.imm.None? &&
    s.pins == map[] && s.pending == {} && s.dropped == {} &&
    s.dir.named in s.dir.manifests && Durable(s) == View(s.current, s.logNumber, s.dir.prevLog) && s.current + s.dir.replayed <= s.tables.Keys &&
    s.logFile in s.logs && s.logs[s.logFile] == {} && s.logNumber <= s.logFile && s.dir.named != s.dir.own &&
    (forall n :: n in s.logs ==> n < s.nextFile) && (forall n :: n in s.tables ==> n < s.nextFile) && s.dir.own < s.nextFile &&
    Content(s.logs, Needed(s.logs, Durable(s))) <= Content(s.tables, s.dir.replayed) &&
    s.committed <= Content(s.tables, s.current) + Content(s.logs, Needed(s.logs, Durable(s)))
  }

  /** A new database: NewDB has written manifest 1, recovery has read it. */
  const NEW_DATABASE := State(
    map[3 := {}], map[], 4, {}, 0, 3, {}, None, 0, {}, Directory(map[1 := View({}, 0, 0)], 2, 1, {}, Replayed, {}, 0),
    map[], NoJob, NoGroup, false, false, {}, {})

  ghost function Content(files: Files, numbers: set<nat>): (r: set<Entry>) {
    set n, e | n in numbers && n in files && e in files[n] :: e
  }

  /** The logs that a recovery from the manifest replays. */
  function Needed(logs: Files, view: View): (r: set<nat>) {
    set n | n in logs && (n >= view.log || n == view.prevLog)
  }

  /** The tables of the linked versions. */
  ghost function Linked(s: State): (r: set<nat>) {
    s.current + set r, n | r in s.pins && n in s.pins[r] :: n
  }

  /** DeleteObsoleteFiles. */
  ghost function Collected(s: State): (r: State) {
    if s.error then s
    else
      var live, at := Linked(s) + s.pending, Numbers(s.logNumber, s.dir.prevLog, s.dir.own);
      s.(logs := map n | n in s.logs && Keep(FileName(LogFile, n), live, at) :: s.logs[n],
         tables := map n | n in s.tables && Keep(FileName(TableFile, n), live, at) :: s.tables[n],
         dir := CollectedDir(s.dir, live, at))
  }

  function CollectedDir(d: Directory, live: set<nat>, at: Numbers): (r: Directory) {
    d.(manifests := map n | n in d.manifests && Keep(FileName(DescriptorFile, n), live, at) :: d.manifests[n],
       temps := set n | n in d.temps && Keep(FileName(TempFile, n), live, at))
  }

  // ----- the steps -----

  datatype Step =
    | CreateManifest
    | RecordOpening
    | WriteTemp
    | NameManifest
    | BeginGroup(entries: set<Entry>)
    | LogGroup
    | EndGroup(ok: bool, syncError: bool)
    | Rotate
    | StartFlush
    | BuildTable(ok: bool)
    | StartMerge(inputs: set<nat>)
    | WriteOutput(entries: set<Entry>)
    | FinishMerge(ok: bool)
    | StartMove
    | WriteManifest(ok: bool, reached: bool)
    | Install
    | Pin(reader: nat)
    | Unpin(reader: nat)
    | Fail

  predicate Enabled(s: State, step: Step) {
    match step
    case CreateManifest => s.dir.stage.Replayed?
    case RecordOpening => s.dir.stage.Created?
    case WriteTemp => s.dir.stage.Recorded?
    case NameManifest => s.dir.stage.Renaming? && s.dir.own in s.dir.temps
    case Fail => true
    case _ => s.dir.stage.Open? && EnabledOpen(s, step)
  }

  /** The steps of an open database. */
  predicate EnabledOpen(s: State, step: Step) {
    match step
    case BeginGroup(_) => s.group.NoGroup? && !s.error
    case LogGroup => s.group.Group? && !s.group.logged && s.logFile in s.logs
    case EndGroup(ok, _) => s.group.Group? && (ok ==> s.group.logged)
    case Rotate => s.group.NoGroup? && s.imm.None? && !s.error
    case StartFlush => s.job.NoJob? && s.imm.Some? && !s.error
    case BuildTable(_) => s.job.Building? && s.imm.Some?
    case StartMerge(inputs) => s.job.NoJob? && s.imm.None? && !s.error && inputs <= s.current
    case WriteOutput(_) => s.job.Merging?
    case FinishMerge(_) => s.job.Merging?
    case StartMove => s.job.NoJob? && s.imm.None? && !s.error
    case WriteManifest(_, _) => s.job.Installing? && !s.job.written
    case Install => s.job.Installing? && s.job.written
    case Pin(r) => r !in s.pins
    case Unpin(r) => r in s.pins
    case _ => false
  }

  /** What the new version no longer holds. */
  ghost function Lost(s: State): (r: set<Entry>) {
    if s.job.Installing? then Content(s.tables, s.job.inputs) - Content(s.tables, s.job.outputs) else {}
  }

  /** The new version becomes current; a flush lets go of the immutable memtable. */
  ghost function Installed(s: State): (r: State)
    requires s.job.Installing?
  {
    s.(current := s.job.next.tables, logNumber := s.job.next.log, dir := s.dir.(prevLog := s.job.next.prevLog), imm := if s.job.kind.Flush? then None else s.imm,
       pending := s.pending - s.job.outputs, job := NoJob)
  }

  /** The engine's own manifest comes to say `view`. */
  function Written(d: Directory, view: View): (r: Directory) {
    d.(manifests := d.manifests[d.own := view])
  }

  /** What the record of the opening adds up to. */
  function OpeningView(s: State): (r: View) {
    View(s.current + s.dir.replayed, s.logFile, 0)
  }

  /** CURRENT is replaced by the temporary file, and the opened version is installed. */
  function Named(s: State): (r: State) {
    s.(dir := s.dir.(named := s.dir.own, temps := s.dir.temps - {s.dir.own}, stage := Open, replayed := {}, prevLog := 0),
       current := s.current + s.dir.replayed, logNumber := s.logFile)
  }

  predicate IsOpening(step: Step) {
    step.CreateManifest? || step.RecordOpening? || step.WriteTemp? || step.NameManifest?
  }

  /** Steps that leave versions, jobs and the manifest alone. */
  predicate OfWritersAndReaders(step: Step) {
    step.BeginGroup? || step.LogGroup? || step.EndGroup? || step.Rotate? || step.Pin? || step.Unpin? || step.Fail?
  }

  ghost function Do(s: State, step: Step): (r: State)
    requires Enabled(s, step)
  {
    if IsOpening(step) then DoOpening(s, step)
    else if OfWritersAndReaders(step) then DoOutside(s, step)
    else DoJob(s, step)
  }

  /** Steps that begin a job. */
  predicate IsStart(step: Step) {
    step.StartFlush? || step.StartMerge? || step.StartMove?
  }

  /** Steps that write tables. */
  predicate IsOutput(step: Step) {
    step.BuildTable? || step.WriteOutput? || step.FinishMerge?
  }

  ghost function DoOpening(s: State, step: Step): (r: State)
    requires Enabled(s, step) && IsOpening(step)
  {
    match step
    case CreateManifest =>
      s.(dir := Written(s.dir, View(s.current, s.logNumber, s.dir.prevLog)).(stage := Created))
    case RecordOpening => s.(dir := Written(s.dir, OpeningView(s)).(stage := Recorded))
    case WriteTemp => s.(dir := s.dir.(temps := s.dir.temps + {s.dir.own}, stage := Renaming))
    case NameManifest => Collected(Named(s))
  }

  ghost function DoOutside(s: State, step: Step): (r: State)
    requires Enabled(s, step) && OfWritersAndReaders(step)
  {
    match step
    case BeginGroup(es) => s.(group := Group(es, false))
    case LogGroup => s.(logs := s.logs[s.logFile := s.logs[s.logFile] + s.group.entries], group := s.group.(logged := true))
    case EndGroup(ok, syncError) => Ended(s, ok, syncError)
    case Rotate => Rotated(s)
    case Pin(r) => s.(pins := s.pins[r := s.current])
    case Unpin(r) => s.(pins := map q | q in s.pins && q != r :: s.pins[q])
    case Fail => s.(error := true)
  }

  /** The steps of the background thread. */
  ghost function DoJob(s: State, step: Step): (r: State)
    requires Enabled(s, step) && !IsOpening(step) && !OfWritersAndReaders(step)
  {
    if IsStart(step) then DoStart(s, step) else if IsOutput(step) then DoOutput(s, step) else DoInstall(s, step)
  }

  ghost function DoStart(s: State, step: Step): (r: State)
    requires Enabled(s, step) && IsStart(step)
  {
    match step
    case StartFlush => s.(job := Building(s.nextFile), pending := s.pending + {s.nextFile}, nextFile := s.nextFile + 1)
    case StartMerge(inputs) => s.(job := Merging(inputs, {}))
    case StartMove => s.(job := Installing(Move, View(s.current, s.logNumber, s.dir.prevLog), {}, {}, false))
  }

  ghost function DoOutput(s: State, step: Step): (r: State)
    requires Enabled(s, step) && IsOutput(step)
  {
    match step
    case BuildTable(ok) => Built(s, ok)
    case WriteOutput(es) => Grown(s, es)
    case FinishMerge(ok) => Finished(s, ok)
  }

  ghost function DoInstall(s: State, step: Step): (r: State)
    requires Enabled(s, step) && (step.WriteManifest? || step.Install?)
  {
    match step
    case WriteManifest(ok, reached) => Manifesting(s, ok, reached)
    case Install => if s.job.kind.Move? then Installed(s) else Collected(Installed(s))
  }

  /** The group is in the memtable, or has failed. */
  ghost function Ended(s: State, ok: bool, syncError: bool): (r: State)
    requires s.group.Group?
  {
      if ok then s.(mem := s.mem + s.group.entries, committed := s.committed + s.group.entries, group := NoGroup)
      else s.(group := NoGroup, error := s.error || syncError)
  }

  /** A new log, and a new memtable. */
  ghost function Rotated(s: State): (r: State) {
      s.(logs := s.logs[s.nextFile := {}], logFile := s.nextFile, nextFile := s.nextFile + 1,
         imm := Some(s.mem), immLog := s.logFile, mem := {})
  }

  /** The memtable has been built into a table, if it held anything, or the build failed. */
  ghost function Built(s: State, ok: bool): (r: State)
    requires s.job.Building? && s.imm.Some?
  {
    var n := s.job.n;
    if !ok then s.(job := NoJob, pending := s.pending - {n}, error := true)
    else if s.imm.value == {} then
      s.(job := Installing(Flush, View(s.current, s.logFile, 0), {}, {}, false), pending := s.pending - {n})
    else
      s.(job := Installing(Flush, View(s.current + {n}, s.logFile, 0), {}, {}, false), pending := s.pending - {n},
         tables := s.tables[n := s.imm.value])
  }

  /** The merge has one more output. */
  ghost function Grown(s: State, es: set<Entry>): (r: State)
    requires s.job.Merging?
  {
    s.(job := Merging(s.job.inputs, s.job.outputs + {s.nextFile}), pending := s.pending + {s.nextFile},
       tables := s.tables[s.nextFile := es], nextFile := s.nextFile + 1)
  }

  ghost function Finished(s: State, ok: bool): (r: State)
    requires s.job.Merging?
  {
    if ok then
      s.(job := Installing(Merge, View(s.current - s.job.inputs + s.job.outputs, s.logNumber, s.dir.prevLog), s.job.inputs, s.job.outputs, false))
    else s.(job := NoJob, pending := s.pending - s.job.outputs, error := true)
  }

  /** The manifest write, which may fail and still reach the disk. */
  ghost function Manifesting(s: State, ok: bool, reached: bool): (r: State)
    requires s.job.Installing?
  {
    if ok then s.(dir := Written(s.dir, s.job.next), dropped := s.dropped + Lost(s), job := s.job.(written := true))
    else
      s.(dir := if reached then Written(s.dir, s.job.next) else s.dir, dropped := if reached then s.dropped + Lost(s) else s.dropped,
         job := NoJob, pending := s.pending - s.job.outputs, error := true, manifestFailed := true)
  }

  // ----- what every step keeps -----

  /** File numbers only go up. */
  ghost predicate Fresh(s: State) {
    (forall n :: n in s.logs ==> n < s.nextFile) && (forall n :: n in s.tables ==> n < s.nextFile) &&
    (forall n :: n in s.pending ==> n < s.nextFile) && s.dir.own < s.nextFile && (s.job.Building? ==> s.job.n < s.nextFile) && s.logFile < s.nextFile
  }

  /** CURRENT names a manifest; while the database opens it is not yet the new one. */
  ghost predicate Manifested(s: State) {
    NamesManifest(s.dir) && (s.dir.stage.Recorded? || s.dir.stage.Renaming? ==> s.dir.own in s.dir.manifests && s.dir.manifests[s.dir.own] == OpeningView(s))
  }

  ghost predicate NamesManifest(d: Directory) {
    d.named in d.manifests && (d.stage.Open? ==> d.replayed == {}) && (d.stage.Open? <==> d.named == d.own) &&
    (d.stage.Renaming? ==> d.own in d.temps)
  }

  /** Nothing happens before the database is open. */
  ghost predicate Quiet(s: State) {
    !s.dir.stage.Open? ==> s.job.NoJob? && s.group.NoGroup? && s.mem == {} && s.imm.None? && s.pins == map[] && s.pending == {} && !s.manifestFailed
  }

  /** What the opened version is to hold of the replayed logs. */
  ghost predicate Replaying(s: State) {
    s.dir.replayed <= s.tables.Keys &&
    (!s.dir.stage.Open? ==> Content(s.logs, Needed(s.logs, Durable(s))) <= Content(s.tables, s.dir.replayed))
  }

  /** The log of the immutable memtable is between the oldest needed log and the current one. */
  ghost predicate LogOrder(s: State) {
    s.logNumber <= s.logFile && Durable(s).log <= s.logFile && (s.imm.Some? ==> s.logNumber <= s.immLog < s.logFile) &&
    (s.job.Installing? ==> if s.job.kind.Flush? then s.job.next.log == s.logFile && s.job.next.prevLog == 0
                           else s.job.next.log == s.logNumber && s.job.next.prevLog == s.dir.prevLog) &&
    (s.job.Building? || (s.job.Installing? && s.job.kind.Flush?) ==> s.imm.Some?)
  }

  ghost predicate Ordered(s: State) {
    Fresh(s) && LogOrder(s)
  }

  /** Every table that a version, the manifest or the background job counts on is there. */
  ghost predicate Present(s: State) {
    s.current <= s.tables.Keys && Durable(s).tables <= s.tables.Keys &&
    (forall r :: r in s.pins ==> s.pins[r] <= s.tables.Keys) &&
    match s.job
    case NoJob => true
    case Building(n) => n in s.pending && n !in s.tables && s.imm.Some?
    case Merging(inputs, outputs) => inputs <= s.current && outputs <= s.tables.Keys && outputs <= s.pending
    case Installing(_, next, inputs, outputs, _) => next.tables <= s.tables.Keys && inputs <= s.current
  }

  /** The memtables are backed by their logs. */
  ghost predicate Backed(s: State) {
    s.logFile in s.logs && s.mem <= s.logs[s.logFile] &&
    (s.imm.Some? ==> s.immLog in s.logs && s.imm.value <= s.logs[s.immLog]) &&
    (s.group.Group? && s.group.logged ==> s.group.entries <= s.logs[s.logFile])
  }

  ghost function Unflushed(s: State): (r: set<Entry>) {
    s.mem + (if s.imm.Some? then s.imm.value else {}) + Content(s.tables, s.dir.replayed)
  }

  /** What is being installed holds what the current version and the flushed memtable hold. */
  ghost predicate Prepared(s: State) {
    s.job.Installing? ==>
      var j := s.job;
      (j.kind.Flush? ==>
        s.imm.Some? && j.inputs == {} && j.outputs == {} && s.current <= j.next.tables
        && s.imm.value <= Content(s.tables, j.next.tables)) &&
      (j.kind.Merge? ==> j.next.tables == s.current - j.inputs + j.outputs) &&
      (j.kind.Move? ==> j.next.tables == s.current && j.inputs == {} && j.outputs == {})
  }

  /** The manifest on disk says what the version set says, unless a write to it failed. */
  ghost predicate Tracked(s: State) {
    (s.manifestFailed ==> s.error && s.job.NoJob?) &&
    (!s.manifestFailed ==>
      Durable(s) == if s.job.Installing? && s.job.written then s.job.next else View(s.current, s.logNumber, s.dir.prevLog)) &&
    (s.job.Installing? && s.job.written ==> Lost(s) <= s.dropped)
  }

  ghost predicate Accounted(s: State) {
    s.committed <= Content(s.tables, s.current) + Unflushed(s) + s.dropped
  }

  /** What a recovery would find: the tables that the manifest CURRENT names has, and the
      logs it has not retired. */
  ghost function OnDisk(s: State): (r: set<Entry>) {
    Content(s.tables, Durable(s).tables) + Content(s.logs, Needed(s.logs, Durable(s)))
  }

  ghost predicate Recoverable(s: State) {
    s.committed <= OnDisk(s) + s.dropped
  }

  ghost predicate Inv(s: State) {
    Manifested(s) && Ordered(s) && Quiet(s) && Replaying(s) && Present(s) && Backed(s) && Prepared(s) && Tracked(s) && Accounted(s) && Recoverable(s)
  }

  lemma OpeningInv(s: State)
    requires Opening(s)
    ensures Inv(s)
  {}

  lemma NewDatabaseOpens()
    ensures Opening(NEW_DATABASE)
  {
    assert Content(NEW_DATABASE.logs, Needed(NEW_DATABASE.logs, Durable(NEW_DATABASE))) == {};
  }

  lemma ContentGrows(files: Files, a: set<nat>, b: set<nat>)
    requires a <= b
    ensures Content(files, a) <= Content(files, b)
  {}

  lemma ContentOf(files: Files, numbers: set<nat>, n: nat)
    requires n in numbers && n in files
    ensures files[n] <= Content(files, numbers)
  {}

  lemma ContentOfNew(files: Files, n: nat, es: set<Entry>, numbers: set<nat>)
    requires n !in files || files[n] <= es
    ensures Content(files, numbers) <= Content(files[n := es], numbers)
  {
    forall e | e in Content(files, numbers) ensures e in Content(files[n := es], numbers) {
      var m :| m in numbers && m in files && e in files[m];
      assert m in files[n := es] && e in files[n := es][m];
    }
  }

  lemma ContentKept(files: Files, kept: Files, numbers: set<nat>)
    requires forall n :: n in numbers && n in files ==> n in kept && kept[n] == files[n]
    ensures Content(files, numbers) <= Content(kept, numbers)
  {}

  lemma ContentSwapped(files: Files, current: set<nat>, inputs: set<nat>, outputs: set<nat>)
    ensures Content(files, current) <= Content(files, current - inputs + outputs) + (Content(files, inputs) - Content(files, outputs))
  {
    forall e | e in Content(files, current)
      ensures e in Content(files, current - inputs + outputs) + (Content(files, inputs) - Content(files, outputs))
    {
      var n :| n in current && n in files && e in files[n];
    }
  }

  lemma RotateKeepsOrdered(s: State)
    requires Ordered(s) && s.imm.None?
    ensures Ordered(Rotated(s))
  {}

  lemma WritersKeepOrdered(s: State, step: Step)
    requires Ordered(s) && Enabled(s, step) && OfWritersAndReaders(step)
    ensures Ordered(Do(s, step))
  {
    if step.Rotate? {
      RotateKeepsOrdered(s);
    } else {
      OthersKeepOrdered(s, step);
    }
  }

  /** The order says nothing about memtables, groups, readers and errors. */
  lemma SameOrder(s: State, t: State)
    requires Ordered(s) && t.logs.Keys == s.logs.Keys && t.tables == s.tables && t.pending == s.pending && t.dir == s.dir && t.job == s.job
    requires t.nextFile == s.nextFile && t.logFile == s.logFile && t.logNumber == s.logNumber && t.immLog == s.immLog
    requires t.imm.Some? == s.imm.Some?
    ensures Ordered(t)
  {}

  lemma OthersKeepOrdered(s: State, step: Step)
    requires Ordered(s) && Enabled(s, step) && OfWritersAndReaders(step) && !step.Rotate?
    ensures Ordered(Do(s, step))
  {
    SameOrder(s, Do(s, step));
  }

  lemma StartsKeepOrdered(s: State, step: Step)
    requires Ordered(s) && Enabled(s, step) && IsStart(step)
    ensures Ordered(Do(s, step))
  {}

  lemma BuildKeepsOrdered(s: State, ok: bool)
    requires Ordered(s) && s.job.Building? && s.imm.Some?
    ensures Ordered(Built(s, ok))
  {}

  lemma GrowKeepsOrdered(s: State, es: set<Entry>)
    requires Ordered(s) && s.job.Merging?
    ensures Ordered(Grown(s, es))
  {}

  lemma FinishKeepsOrdered(s: State, ok: bool)
    requires Ordered(s) && s.job.Merging?
    ensures Ordered(Finished(s, ok))
  {}

  lemma OutputsKeepOrdered(s: State, step: Step)
    requires Ordered(s) && Enabled(s, step) && IsOutput(step)
    ensures Ordered(Do(s, step))
  {
    match step
    case BuildTable(ok) => BuildKeepsOrdered(s, ok);
    case WriteOutput(es) => GrowKeepsOrdered(s, es);
    case FinishMerge(ok) => FinishKeepsOrdered(s, ok);
  }

  lemma ManifestKeepsOrdered(s: State, ok: bool, reached: bool)
    requires Ordered(s) && Manifested(s) && s.job.Installing? && s.dir.stage.Open?
    ensures Ordered(Manifesting(s, ok, reached)) && Manifested(Manifesting(s, ok, reached))
  {}

  lemma CollectedLess(s: State)
    ensures Collected(s).logs.Keys <= s.logs.Keys && Collected(s).tables.Keys <= s.tables.Keys
    ensures Collected(s) == s.(logs := Collected(s).logs, tables := Collected(s).tables, dir := Collected(s).dir)
  {}

  /** The manifest that CURRENT names is not collected. */
  lemma CollectedKeepsManifest(s: State)
    requires s.dir.stage.Open? && Manifested(s)
    ensures Manifested(Collected(s)) && Durable(Collected(s)) == Durable(s)
  {}

  lemma CollectedKeepsOrdered(s: State)
    requires Ordered(s) && Manifested(s) && s.dir.stage.Open?
    ensures Ordered(Collected(s)) && Manifested(Collected(s)) && Durable(Collected(s)) == Durable(s)
  {
    CollectedLess(s);
    CollectedKeepsManifest(s);
  }

  lemma InstallKeepsOrdered(s: State)
    requires Ordered(s) && Manifested(s) && Enabled(s, Install)
    ensures Ordered(Do(s, Install)) && Manifested(Do(s, Install))
  {
    CollectedKeepsOrdered(Installed(s));
  }

  lemma KeepsOrdered(s: State, step: Step)
    requires Ordered(s) && Manifested(s) && Enabled(s, step) && !IsOpening(step)
    ensures Ordered(Do(s, step))
  {
    if OfWritersAndReaders(step) {
      WritersKeepOrdered(s, step);
    } else if IsStart(step) {
      StartsKeepOrdered(s, step);
    } else if IsOutput(step) {
      OutputsKeepOrdered(s, step);
    } else if step.Install? {
      InstallKeepsOrdered(s);
    } else {
      ManifestKeepsOrdered(s, step.ok, step.reached);
    }
  }

  lemma InstallKeepsPresent(s: State)
    requires Ordered(s) && Present(s) && Tracked(s) && Enabled(s, Install)
    ensures Present(Do(s, Install))
  {}

  lemma KeepsPresent(s: State, step: Step)
    requires Ordered(s) && Present(s) && Tracked(s) && Enabled(s, step) && !IsOpening(step)
    ensures Present(Do(s, step))
  {
    if OfWritersAndReaders(step) {
      WritersKeepPresent(s, step);
    } else if step.Install? {
      InstallKeepsPresent(s);
    } else if IsStart(step) {
      StartsKeepPresent(s, step);
    } else if IsOutput(step) {
      OutputsKeepPresent(s, step);
    } else {
      ManifestKeepsPresent(s, step);
    }
  }

  lemma SamePresent(s: State, t: State)
    requires Present(s) && t.current == s.current && t.tables == s.tables && t.dir == s.dir && t.pins == s.pins && t.job == s.job
    requires t.pending == s.pending && (s.imm.Some? ==> t.imm.Some?)
    ensures Present(t)
  {}

  lemma PinsKeepPresent(s: State, step: Step)
    requires Present(s) && Enabled(s, step) && (step.Pin? || step.Unpin?)
    ensures Present(Do(s, step))
  {}

  lemma WritersKeepPresent(s: State, step: Step)
    requires Ordered(s) && Present(s) && Enabled(s, step) && OfWritersAndReaders(step)
    ensures Present(Do(s, step))
  {
    if step.Pin? || step.Unpin? {
      PinsKeepPresent(s, step);
    } else {
      SamePresent(s, Do(s, step));
    }
  }

  lemma StartsKeepPresent(s: State, step: Step)
    requires Ordered(s) && Present(s) && Tracked(s) && Enabled(s, step) && IsStart(step)
    ensures Present(Do(s, step))
  {}

  lemma BuildKeepsPresent(s: State, ok: bool)
    requires Ordered(s) && Present(s) && s.job.Building? && s.imm.Some?
    ensures Present(Built(s, ok))
  {}

  lemma GrowKeepsPresent(s: State, es: set<Entry>)
    requires Present(s) && s.job.Merging?
    ensures Present(Grown(s, es))
  {}

  lemma FinishKeepsPresent(s: State, ok: bool)
    requires Present(s) && s.job.Merging?
    ensures Present(Finished(s, ok))
  {}

  lemma OutputsKeepPresent(s: State, step: Step)
    requires Ordered(s) && Present(s) && Enabled(s, step) && IsOutput(step)
    ensures Present(Do(s, step))
  {
    match step
    case BuildTable(ok) => BuildKeepsPresent(s, ok);
    case WriteOutput(es) => GrowKeepsPresent(s, es);
    case FinishMerge(ok) => FinishKeepsPresent(s, ok);
  }

  lemma ManifestKeepsPresent(s: State, step: Step)
    requires Ordered(s) && Present(s) && Tracked(s) && Enabled(s, step) && step.WriteManifest?
    ensures Present(Do(s, step))
  {}

  lemma InstallKeepsBacked(s: State)
    requires Ordered(s) && Backed(s) && Enabled(s, Install)
    ensures Backed(Do(s, Install))
  {}

  lemma KeepsBacked(s: State, step: Step)
    requires Ordered(s) && Backed(s) && Enabled(s, step) && !IsOpening(step)
    ensures Backed(Do(s, step))
  {
    if OfWritersAndReaders(step) {
      WritersKeepBacked(s, step);
    } else if step.Install? {
      InstallKeepsBacked(s);
    } else if IsStart(step) {
      StartsKeepBacked(s, step);
    } else if IsOutput(step) {
      OutputsKeepBacked(s, step);
    } else {
      ManifestKeepsBacked(s, step);
    }
  }

  lemma WritersKeepBacked(s: State, step: Step)
    requires Ordered(s) && Backed(s) && Enabled(s, step) && OfWritersAndReaders(step)
    ensures Backed(Do(s, step))
  {}

  lemma StartsKeepBacked(s: State, step: Step)
    requires Ordered(s) && Backed(s) && Enabled(s, step) && IsStart(step)
    ensures Backed(Do(s, step))
  {}

  lemma BuildKeepsBacked(s: State, ok: bool)
    requires Backed(s) && s.job.Building? && s.imm.Some?
    ensures Backed(Built(s, ok))
  {}

  lemma OutputsKeepBacked(s: State, step: Step)
    requires Backed(s) && Enabled(s, step) && IsOutput(step)
    ensures Backed(Do(s, step))
  {
    if step.BuildTable? { BuildKeepsBacked(s, step.ok); }
  }

  lemma ManifestKeepsBacked(s: State, step: Step)
    requires Ordered(s) && Backed(s) && Enabled(s, step) && step.WriteManifest?
    ensures Backed(Do(s, step))
  {}

  lemma BuildKeepsPrepared(s: State, ok: bool)
    requires Present(s) && s.job.Building? && s.imm.Some?
    ensures Prepared(Built(s, ok))
  {
    if ok && s.imm.value != {} {
      ContentOf(Built(s, ok).tables, s.current + {s.job.n}, s.job.n);
    }
  }

  lemma SamePrepared(s: State, t: State)
    requires Prepared(s) && t.job == s.job && t.current == s.current && t.tables == s.tables && (s.imm.Some? ==> t.imm == s.imm)
    ensures Prepared(t)
  {}

  lemma ManifestKeepsPrepared(s: State, ok: bool, reached: bool)
    requires Prepared(s) && s.job.Installing?
    ensures Prepared(Manifesting(s, ok, reached))
  {}

  lemma InstallKeepsPrepared(s: State)
    requires Enabled(s, Install)
    ensures Prepared(Do(s, Install))
  {}

  lemma KeepsPrepared(s: State, step: Step)
    requires Ordered(s) && Present(s) && Prepared(s) && Enabled(s, step) && !IsOpening(step)
    ensures Prepared(Do(s, step))
  {
    if OfWritersAndReaders(step) {
      SamePrepared(s, Do(s, step));
    } else if step.BuildTable? {
      BuildKeepsPrepared(s, step.ok);
    } else if step.WriteManifest? {
      ManifestKeepsPrepared(s, step.ok, step.reached);
    } else if step.Install? {
      InstallKeepsPrepared(s);
    }
  }

  lemma InstallKeepsTracked(s: State)
    requires Ordered(s) && Manifested(s) && Tracked(s) && Enabled(s, Install)
    ensures Tracked(Do(s, Install))
  {
    CollectedKeepsManifest(Installed(s));
  }

  lemma ManifestKeepsTracked(s: State, step: Step)
    requires Ordered(s) && Manifested(s) && Present(s) && Tracked(s) && Enabled(s, step) && step.WriteManifest?
    ensures Tracked(Do(s, step))
  {}

  lemma KeepsTracked(s: State, step: Step)
    requires Manifested(s) && Ordered(s) && Present(s) && Tracked(s) && Enabled(s, step) && !IsOpening(step)
    ensures Tracked(Do(s, step))
  {
    if step.Install? {
      InstallKeepsTracked(s);
    } else if step.WriteManifest? {
      ManifestKeepsTracked(s, step);
    }
  }

  /** The version being installed accounts for all that the current one does. */
  lemma NextAccounts(s: State)
    requires Accounted(s) && Prepared(s) && s.job.Installing? && s.dir.replayed == {}
    ensures s.committed <= Content(s.tables, s.job.next.tables) + s.mem + (s.dropped + Lost(s))
                           + if s.imm.Some? && !s.job.kind.Flush? then s.imm.value else {}
  {
    if s.job.kind.Merge? {
      ContentSwapped(s.tables, s.current, s.job.inputs, s.job.outputs);
    } else {
      ContentGrows(s.tables, s.current, s.job.next.tables);
    }
  }

  lemma InstallKeepsAccounted(s: State)
    requires Manifested(s) && Accounted(s) && Prepared(s) && Tracked(s) && Enabled(s, Install)
    ensures Accounted(Do(s, Install))
  {
    NextAccounts(s);
    ContentKept(s.tables, Do(s, Install).tables, s.job.next.tables);
  }

  lemma KeepsAccounted(s: State, step: Step)
    requires Manifested(s) && Ordered(s) && Present(s) && Prepared(s) && Tracked(s) && Accounted(s) && Enabled(s, step) && !IsOpening(step)
    ensures Accounted(Do(s, step))
  {
    if IsOutput(step) {
      OutputsKeepAccounted(s, step);
    } else if step.Install? {
      InstallKeepsAccounted(s);
    } else if step.WriteManifest? {
      ManifestKeepsAccounted(s, step);
    } else if OfWritersAndReaders(step) {
      WritersKeepAccounted(s, step);
    }
  }

  lemma EndKeepsAccounted(s: State, ok: bool, syncError: bool)
    requires Accounted(s) && s.group.Group?
    ensures Accounted(Ended(s, ok, syncError))
  {}

  lemma RotateKeepsAccounted(s: State)
    requires Accounted(s) && s.imm.None?
    ensures Accounted(Rotated(s))
  {}

  lemma SameAccounted(s: State, t: State)
    requires Accounted(s) && t.committed == s.committed && t.tables == s.tables && t.current == s.current && t.mem == s.mem
    requires t.imm == s.imm && t.dir == s.dir && t.dropped == s.dropped
    ensures Accounted(t)
  {}

  lemma WritersKeepAccounted(s: State, step: Step)
    requires Accounted(s) && Enabled(s, step) && OfWritersAndReaders(step)
    ensures Accounted(Do(s, step))
  {
    if step.EndGroup? {
      EndKeepsAccounted(s, step.ok, step.syncError);
    } else if step.Rotate? {
      RotateKeepsAccounted(s);
    } else {
      SameAccounted(s, Do(s, step));
    }
  }

  lemma ManifestKeepsAccounted(s: State, step: Step)
    requires Accounted(s) && Enabled(s, step) && step.WriteManifest?
    ensures Accounted(Do(s, step))
  {}

  lemma BuildKeepsAccounted(s: State, ok: bool)
    requires s.dir.replayed == {} && Present(s) && Accounted(s) && s.job.Building? && s.imm.Some?
    ensures Accounted(Built(s, ok))
  {
    ContentOfNew(s.tables, s.job.n, s.imm.value, s.current);
  }

  lemma GrowKeepsAccounted(s: State, es: set<Entry>)
    requires s.dir.replayed == {} && Fresh(s) && Accounted(s) && s.job.Merging?
    ensures Accounted(Grown(s, es))
  {
    ContentOfNew(s.tables, s.nextFile, es, s.current);
  }

  lemma OutputsKeepAccounted(s: State, step: Step)
    requires Manifested(s) && Ordered(s) && Present(s) && Accounted(s) && Enabled(s, step) && IsOutput(step)
    ensures Accounted(Do(s, step))
  {
    match step
    case BuildTable(ok) => BuildKeepsAccounted(s, ok);
    case WriteOutput(es) => GrowKeepsAccounted(s, es);
    case FinishMerge(ok) =>
  }

  lemma InstallKeepsRecoverable(s: State)
    requires Manifested(s) && Recoverable(s) && Tracked(s) && Enabled(s, Install)
    ensures Recoverable(Do(s, Install))
  {
    CollectedKeepsManifest(Installed(s));
    var t := Do(s, Install);
    ContentKept(s.tables, t.tables, Durable(s).tables);
    ContentKept(s.logs, t.logs, Needed(s.logs, Durable(s)));
    ContentGrows(t.logs, Needed(s.logs, Durable(s)), Needed(t.logs, Durable(t)));
  }

  /** The logs hold what the new version leaves to the memtables. */
  lemma ManifestKeepsRecoverable(s: State, view: View, dropped: set<Entry>)
    requires Ordered(s) && Backed(s) && Prepared(s) && Accounted(s) && s.job.Installing? && s.dir.replayed == {}
    requires view == s.job.next && dropped == s.dropped + Lost(s)
    ensures s.committed <= Content(s.tables, view.tables) + Content(s.logs, Needed(s.logs, view)) + dropped
  {
    NextAccounts(s);
    ContentOf(s.logs, Needed(s.logs, view), s.logFile);
    if s.imm.Some? && !s.job.kind.Flush? {
      ContentOf(s.logs, Needed(s.logs, view), s.immLog);
    }
  }

  lemma LogsGrow(s: State, n: nat, es: set<Entry>)
    requires n !in s.logs || s.logs[n] <= es
    ensures Content(s.logs, Needed(s.logs, Durable(s))) <= Content(s.logs[n := es], Needed(s.logs[n := es], Durable(s)))
  {
    ContentOfNew(s.logs, n, es, Needed(s.logs, Durable(s)));
    ContentGrows(s.logs[n := es], Needed(s.logs, Durable(s)), Needed(s.logs[n := es], Durable(s)));
  }

  lemma KeepsRecoverable(s: State, step: Step)
    requires Inv(s) && Enabled(s, step) && !IsOpening(step)
    ensures Recoverable(Do(s, step))
  {
    if step.Install? {
      InstallKeepsRecoverable(s);
    } else if step.WriteManifest? {
      ManifestKeepsRecoverable(s, s.job.next, s.dropped + Lost(s));
    } else if IsOutput(step) {
      OutputsKeepRecoverable(s, step);
    } else if OfWritersAndReaders(step) {
      WritersKeepRecoverable(s, step);
    }
  }

  lemma BuildKeepsRecoverable(s: State, ok: bool)
    requires Present(s) && Recoverable(s) && s.job.Building? && s.imm.Some?
    ensures Recoverable(Built(s, ok))
  {
    ContentOfNew(s.tables, s.job.n, s.imm.value, Durable(s).tables);
  }

  lemma GrowKeepsRecoverable(s: State, es: set<Entry>)
    requires Fresh(s) && Recoverable(s) && s.job.Merging?
    ensures Recoverable(Grown(s, es))
  {
    ContentOfNew(s.tables, s.nextFile, es, Durable(s).tables);
  }

  lemma OutputsKeepRecoverable(s: State, step: Step)
    requires Ordered(s) && Present(s) && Recoverable(s) && Enabled(s, step) && IsOutput(step)
    ensures Recoverable(Do(s, step))
  {
    match step
    case BuildTable(ok) => BuildKeepsRecoverable(s, ok);
    case WriteOutput(es) => GrowKeepsRecoverable(s, es);
    case FinishMerge(ok) =>
  }

  lemma WritersKeepRecoverable(s: State, step: Step)
    requires Ordered(s) && Backed(s) && Recoverable(s) && Enabled(s, step) && OfWritersAndReaders(step)
    ensures Recoverable(Do(s, step))
  {
    if step.LogGroup? {
      LogsGrow(s, s.logFile, s.logs[s.logFile] + s.group.entries);
    } else if step.Rotate? {
      LogsGrow(s, s.nextFile, {});
    } else if step.EndGroup? {
      ContentOf(s.logs, Needed(s.logs, Durable(s)), s.logFile);
    }
  }

  /** Only the opening, an installation and the manifest's writes touch the directory. */
  lemma KeepsManifested(s: State, step: Step)
    requires Manifested(s) && Ordered(s) && Enabled(s, step) && !IsOpening(step)
    ensures Manifested(Do(s, step))
  {
    if step.Install? {
      InstallKeepsOrdered(s);
    } else if step.WriteManifest? {
      ManifestKeepsOrdered(s, step.ok, step.reached);
    } else {
      LeavesDirectory(s, step);
    }
  }

  lemma WritersLeaveDirectory(s: State, step: Step)
    requires Enabled(s, step) && OfWritersAndReaders(step)
    ensures Do(s, step).dir == s.dir
  {}

  lemma StartsLeaveDirectory(s: State, step: Step)
    requires Enabled(s, step) && IsStart(step)
    ensures Do(s, step).dir == s.dir
  {}

  lemma OutputsLeaveDirectory(s: State, step: Step)
    requires Enabled(s, step) && IsOutput(step)
    ensures Do(s, step).dir == s.dir
  {}

  lemma LeavesDirectory(s: State, step: Step)
    requires Enabled(s, step) && !IsOpening(step) && !step.Install? && !step.WriteManifest?
    ensures Do(s, step).dir == s.dir
  {
    if OfWritersAndReaders(step) {
      WritersLeaveDirectory(s, step);
    } else if IsStart(step) {
      StartsLeaveDirectory(s, step);
    } else {
      OutputsLeaveDirectory(s, step);
    }
  }

  /** Once open, the database stays so, with the logs replayed. */
  lemma StaysOpen(s: State, step: Step)
    requires s.dir.stage.Open? && s.dir.replayed == {} && Enabled(s, step) && !IsOpening(step)
    ensures Do(s, step).dir.stage.Open? && Do(s, step).dir.replayed == {}
  {
    if !step.Install? && !step.WriteManifest? { LeavesDirectory(s, step); }
  }

  lemma KeepsQuiet(s: State, step: Step)
    requires Quiet(s) && Replaying(s) && Manifested(s) && Enabled(s, step) && !IsOpening(step)
    ensures Quiet(Do(s, step)) && Replaying(Do(s, step))
  {
    if !step.Fail? { StaysOpen(s, step); }
  }

  // ----- opening -----

  lemma PreparingKeepsInv(s: State, step: Step)
    requires Inv(s) && Enabled(s, step) && (step.CreateManifest? || step.RecordOpening? || step.WriteTemp?)
    ensures Inv(Do(s, step))
  {
    assert Durable(Do(s, step)) == Durable(s);
  }

  lemma NamedInv(s: State)
    requires Inv(s) && Enabled(s, NameManifest)
    ensures Inv(Named(s))
  {
    var t := Named(s);
    assert Durable(t) == OpeningView(s);
    ContentUnion(s.tables, s.current, s.dir.replayed);
  }

  lemma ContentUnion(files: Files, a: set<nat>, b: set<nat>)
    ensures Content(files, a + b) == Content(files, a) + Content(files, b)
  {}

  /** Collecting in an open database without a job under way. */
  lemma CollectedKeepsInv(s: State)
    requires Inv(s) && s.dir.stage.Open? && s.job.NoJob?
    ensures Inv(Collected(s))
  {
    var t := Collected(s);
    CollectedKeepsOrdered(s);
    ContentKept(s.tables, t.tables, s.current);
    ContentKept(s.tables, t.tables, Durable(s).tables);
    ContentKept(s.logs, t.logs, Needed(s.logs, Durable(s)));
    ContentGrows(t.logs, Needed(s.logs, Durable(s)), Needed(t.logs, Durable(t)));
  }

  lemma NamingKeepsInv(s: State)
    requires Inv(s) && Enabled(s, NameManifest)
    ensures Inv(Do(s, NameManifest))
  {
    NamedInv(s);
    CollectedKeepsInv(Named(s));
  }

  lemma StepKeepsInv(s: State, step: Step)
    requires Inv(s) && Enabled(s, step)
    ensures Inv(Do(s, step))
  {
    if step.NameManifest? {
      NamingKeepsInv(s);
    } else if IsOpening(step) {
      PreparingKeepsInv(s, step);
    } else {
      OpenStepKeepsInv(s, step);
    }
  }

  lemma OpenStepKeepsInv(s: State, step: Step)
    requires Inv(s) && Enabled(s, step) && !IsOpening(step)
    ensures Inv(Do(s, step))
  {
    KeepsManifested(s, step);
    KeepsQuiet(s, step);
    KeepsOrdered(s, step);
    KeepsPresent(s, step);
    KeepsBacked(s, step);
    KeepsPrepared(s, step);
    KeepsTracked(s, step);
    KeepsAccounted(s, step);
    KeepsRecoverable(s, step);
  }

  // ----- runs -----

  ghost predicate Legal(s: State, steps: seq<Step>)
    decreases |steps|
  {
    steps == [] || (Enabled(s, steps[0]) && Legal(Do(s, steps[0]), steps[1..]))
  }

  ghost function Final(s: State, steps: seq<Step>): (r: State)
    requires Legal(s, steps)
    decreases |steps|
  {
    if steps == [] then s else Final(Do(s, steps[0]), steps[1..])
  }

  lemma {:induction false} RunKeepsInv(s: State, steps: seq<Step>)
    requires Inv(s) && Legal(s, steps)
    ensures Inv(Final(s, steps))
    decreases |steps|
  {
    if steps != [] {
      StepKeepsInv(s, steps[0]);
      RunKeepsInv(Do(s, steps[0]), steps[1..]);
    }
  }

  /** In every run nothing needed is collected: each table of a linked version or
      of an unfinished compaction is there; what the memtable holds is in the
      current log, and what the immutable one holds in a log that the collector
      keeps; and each committed entry is in one of the three places, unless a
      compaction dropped it. */
  lemma NothingNeededIsCollected(s0: State, steps: seq<Step>)
    requires Opening(s0) && Legal(s0, steps)
    ensures var s := Final(s0, steps);
            Linked(s) <= s.tables.Keys && (s.job.Merging? ==> s.job.inputs + s.job.outputs <= s.tables.Keys) &&
            s.logFile in s.logs && s.logNumber <= s.logFile && s.mem <= s.logs[s.logFile] &&
            (s.imm.Some? ==> s.immLog in s.logs && s.logNumber <= s.immLog < s.logFile && s.imm.value <= s.logs[s.immLog]) &&
            (s.dir.stage.Open? ==> s.dir.named == s.dir.own && s.committed <= Content(s.tables, s.current) + Unflushed(s) + s.dropped)
  {
    OpeningInv(s0);
    RunKeepsInv(s0, steps);
  }

  /** A crash at any point of any run, the opening included, loses no committed write:
      CURRENT names a manifest that is there, its tables are there, and each write is in
      one of them or in a log that this manifest has not retired. */
  lemma CrashLosesNothing(s0: State, steps: seq<Step>)
    requires Opening(s0) && Legal(s0, steps)
    ensures var s := Final(s0, steps);
            s.dir.named in s.dir.manifests &&
            var view := s.dir.manifests[s.dir.named];
            view.tables <= s.tables.Keys &&
            forall e :: e in s.committed ==>
              e in s.dropped ||
              (exists n :: n in view.tables && e in s.tables[n]) ||
              exists n :: n in s.logs && (n >= view.log || n == view.prevLog) && e in s.logs[n]
  {
    OpeningInv(s0);
    RunKeepsInv(s0, steps);
    var s := Final(s0, steps);
    forall e | e in s.committed && e !in s.dropped
      ensures (exists n :: n in Durable(s).tables && e in s.tables[n]) ||
              exists n :: n in s.logs && (n >= Durable(s).log || n == Durable(s).prevLog) && e in s.logs[n]
    {
      if e in Content(s.tables, Durable(s).tables) {
        var n :| n in Durable(s).tables && n in s.tables && e in s.tables[n];
      } else {
        var n :| n in Needed(s.logs, Durable(s)) && n in s.logs && e in s.logs[n];
      }
    }
  }

  // ----- after an error -----

  /** A failed table, compaction or manifest write, and a sync that leaves the log in doubt. */
  predicate Fails(step: Step) {
    step.Fail? || (step.EndGroup? && !step.ok && step.syncError) || (step.BuildTable? && !step.ok) ||
    (step.FinishMerge? && !step.ok) || (step.WriteManifest? && !step.ok)
  }

  /** The error is set by these failures, and by nothing else, and stays. */
  lemma ErrorIff(s: State, step: Step)
    requires Enabled(s, step)
    ensures Do(s, step).error <==> s.error || Fails(step)
  {
    if IsOpening(step) {
    } else if OfWritersAndReaders(step) {
      OutsideErrorIff(s, step);
    } else {
      JobErrorIff(s, step);
    }
  }

  lemma OutsideErrorIff(s: State, step: Step)
    requires Enabled(s, step) && OfWritersAndReaders(step)
    ensures DoOutside(s, step).error <==> s.error || Fails(step)
  {}

  lemma StartKeepsError(s: State, step: Step)
    requires Enabled(s, step) && IsStart(step)
    ensures DoStart(s, step).error == s.error && !Fails(step)
  {}

  lemma OutputErrorIff(s: State, step: Step)
    requires Enabled(s, step) && IsOutput(step)
    ensures DoOutput(s, step).error <==> s.error || Fails(step)
  {}

  lemma InstallErrorIff(s: State, step: Step)
    requires Enabled(s, step) && (step.WriteManifest? || step.Install?)
    ensures DoInstall(s, step).error <==> s.error || Fails(step)
  {}

  lemma JobErrorIff(s: State, step: Step)
    requires Enabled(s, step) && !IsOpening(step) && !OfWritersAndReaders(step)
    ensures DoJob(s, step).error <==> s.error || Fails(step)
  {
    if IsStart(step) {
      StartKeepsError(s, step);
    } else if IsOutput(step) {
      OutputErrorIff(s, step);
    } else {
      InstallErrorIff(s, step);
    }
  }

  ghost predicate KeepsFiles(s: State, t: State) {
    s.logs.Keys <= t.logs.Keys && s.tables.Keys <= t.tables.Keys && s.dir.manifests.Keys <= t.dir.manifests.Keys
  }

  lemma OpeningKeepsFiles(s: State, step: Step)
    requires Enabled(s, step) && IsOpening(step) && s.error
    ensures KeepsFiles(s, DoOpening(s, step))
  {}

  lemma OutsideKeepsFiles(s: State, step: Step)
    requires Enabled(s, step) && OfWritersAndReaders(step)
    ensures KeepsFiles(s, DoOutside(s, step))
  {}

  lemma OutputKeepsFiles(s: State, step: Step)
    requires Enabled(s, step) && IsOutput(step)
    ensures KeepsFiles(s, DoOutput(s, step))
  {}

  lemma InstallKeepsFiles(s: State, step: Step)
    requires Enabled(s, step) && (step.WriteManifest? || step.Install?) && s.error
    ensures KeepsFiles(s, DoInstall(s, step))
  {}

  lemma JobKeepsFiles(s: State, step: Step)
    requires Enabled(s, step) && !IsOpening(step) && !OfWritersAndReaders(step) && s.error
    ensures KeepsFiles(s, DoJob(s, step))
  {
    if IsStart(step) {
    } else if IsOutput(step) {
      OutputKeepsFiles(s, step);
    } else {
      InstallKeepsFiles(s, step);
    }
  }

  /** Once something has failed, no log, table or manifest is deleted any more. */
  lemma {:induction false} ErrorKeepsFiles(s: State, steps: seq<Step>)
    requires Legal(s, steps) && s.error
    ensures Final(s, steps).error && KeepsFiles(s, Final(s, steps))
    decreases |steps|
  {
    if steps != [] {
      var step := steps[0];
      ErrorIff(s, step);
      if IsOpening(step) {
        OpeningKeepsFiles(s, step);
      } else if OfWritersAndReaders(step) {
        OutsideKeepsFiles(s, step);
      } else {
        JobKeepsFiles(s, step);
      }
      ErrorKeepsFiles(Do(s, step), steps[1..]);
    }
  }
}
