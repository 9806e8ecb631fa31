/** Group commit (db/db_impl.cc Write, BuildBatchGroup, MakeRoomForWrite, Get):
    a state machine whose steps are the stretches between taking and giving up
    the mutex, and, while the mutex is given up, the single effects that other
    threads may see. */
module GroupCommit {
  import opened Keys
  import opened Lookup

  datatype Op = Put(key: UserKey, value: Bytes) | Delete(key: UserKey)

  datatype Status = OK | Error(msg: string)

  /** A queued call of Write; a call without a batch only asks for room. */
  datatype Waiter = Waiter(id: nat, batch: Option<seq<Op>>, size: nat, sync: bool)

  // ----- BuildBatchGroup -----

  function MaxGroupSize(first: nat): (r: nat) {
    if first <= 131072 then first + 131072 else 1048576
  }

  function SizeOf(w: Waiter): (r: nat) {
    if w.batch.Some? then w.size else 0
  }

  function TotalSize(ws: seq<Waiter>): (r: nat) {
    if ws == [] then 0 else TotalSize(ws[..|ws| - 1]) + SizeOf(ws[|ws| - 1])
  }

  function OpsOf(ws: seq<Waiter>): (r: seq<Op>) {
    if ws == [] then []
    else OpsOf(ws[..|ws| - 1]) + (if ws[|ws| - 1].batch.Some? then ws[|ws| - 1].batch.value else [])
  }

  /** A waiter may join a group of `size` bytes led by `first`. */
  predicate MayJoin(first: Waiter, size: nat, w: Waiter) {
    !(w.sync && !first.sync) && (w.batch.Some? ==> size + w.size <= MaxGroupSize(first.size))
  }

  /** Waiter `i` of the queue may join the group of those before it. */
  predicate JoinsAt(queue: seq<Waiter>, i: nat)
    requires i < |queue|
  {
    MayJoin(queue[0], TotalSize(queue[..i]), queue[i])
  }

  /** The longest prefix of the queue in which every later waiter may join those before it. */
  ghost predicate IsGroup(queue: seq<Waiter>, n: nat) {
    1 <= n <= |queue| &&
    (forall i {:trigger JoinsAt(queue, i)} :: 1 <= i < n ==> JoinsAt(queue, i)) && (n < |queue| ==> !JoinsAt(queue, n))
  }

  lemma PrefixStep(queue: seq<Waiter>, i: nat)
    requires i < |queue|
    ensures TotalSize(queue[..i + 1]) == TotalSize(queue[..i]) + SizeOf(queue[i])
    ensures OpsOf(queue[..i + 1]) == OpsOf(queue[..i]) + (if queue[i].batch.Some? then queue[i].batch.value else [])
  {
    assert queue[..i + 1][..i] == queue[..i];
  }

  method BuildBatchGroup(queue: seq<Waiter>) returns (n: nat, ops: seq<Op>)
    requires queue != [] && queue[0].batch.Some?
    ensures IsGroup(queue, n) && ops == OpsOf(queue[..n])
  {
    var first := queue[0];
    var size := first.size;
    var maxSize := 1048576;
    if size <= 131072 {
      maxSize := size + 131072;
    }
    ops := first.batch.value;
    PrefixStep(queue, 0);
    n := 1;
    while n < |queue|
      invariant 1 <= n <= |queue| && maxSize == MaxGroupSize(first.size)
      invariant size == TotalSize(queue[..n]) && ops == OpsOf(queue[..n])
      invariant forall i {:trigger JoinsAt(queue, i)} :: 1 <= i < n ==> JoinsAt(queue, i)
    {
      var w := queue[n];
      if w.sync && !first.sync {
        break;
      }
      PrefixStep(queue, n);
      if w.batch.Some? {
        if size + w.size > maxSize {
          break;
        }
        size := size + w.size;
        ops := ops + w.batch.value;
      }
      n := n + 1;
    }
  }

  /** The queue alone decides the group. */
  lemma GroupIsUnique(queue: seq<Waiter>, m: nat, n: nat)
    requires IsGroup(queue, m) && IsGroup(queue, n)
    ensures m == n
  {}

  /** A group stays within its size limit, in bytes, unless it is its leader alone that
      exceeds it; nobody in it asks for a sync that the leader does not make; and
      it ends only with the queue, or at a writer that would break these rules. */
  lemma GroupIsBounded(queue: seq<Waiter>, n: nat)
    requires IsGroup(queue, n) && queue[0].batch.Some?
    ensures var size, limit := TotalSize(queue[..n]), if queue[0].size <= 131072 then queue[0].size + 131072 else 1048576;
            (size <= limit || size == queue[0].size) &&
            (n < |queue| ==> (queue[n].sync && !queue[0].sync) || (queue[n].batch.Some? && size + queue[n].size > limit))
    ensures forall i :: 0 <= i < n && queue[i].sync ==> queue[0].sync
  {
    BoundedPrefix(queue, n, n);
    forall i | 0 < i < n && queue[i].sync ensures queue[0].sync {
      assert JoinsAt(queue, i);
    }
  }

  lemma {:induction false} BoundedPrefix(queue: seq<Waiter>, n: nat, i: nat)
    requires IsGroup(queue, n) && queue[0].batch.Some? && 1 <= i <= n
    ensures TotalSize(queue[..i]) <= MaxGroupSize(queue[0].size) || TotalSize(queue[..i]) == queue[0].size
    decreases i
  {
    PrefixStep(queue, i - 1);
    if i > 1 {
      BoundedPrefix(queue, n, i - 1);
      assert JoinsAt(queue, i - 1);
    }
  }

  // ----- the state -----

  datatype Stage = Logging | Syncing | Inserting | Settled

  /** What the thread at the front of the queue is doing. */
  datatype Phase =
    | Idle
    | Making
    | Writing(n: nat, stage: Stage, status: Status, inserted: nat, syncError: bool)

  datatype LogRecord = LogRecord(base: nat, ops: seq<Op>)

  /** A group that has been acknowledged. */
  datatype Group = Group(members: seq<Waiter>, base: nat, ops: seq<Op>, status: Status, syncError: bool, record: Option<nat>)

  datatype Read = Read(key: UserKey, snapshot: nat, after: nat)

  datatype State = State(
    arrivals: seq<nat>, queue: seq<Waiter>, acks: seq<(nat, Status)>, phase: Phase, lastSequence: nat,
    log: seq<LogRecord>, synced: nat, store: seq<Entry>, error: Status, history: seq<Group>, readers: map<nat, Read>)

  const INITIAL := State([], [], [], Idle, 0, [], 0, [], OK, [], map[])

  function EntryOf(op: Op, sn: SequenceNumber): (r: Entry) {
    match op
    case Put(k, v) => Entry(IKey(k, sn, Value), v)
    case Delete(k) => Entry(IKey(k, sn, Deletion), [])
  }

  /** A batch gets consecutive sequence numbers from `base` on. */
  function EntriesFrom(base: nat, ops: seq<Op>): (es: seq<Entry>)
    requires base + |ops| <= MAX_SEQUENCE
    ensures |es| == |ops|
  {
    seq(|ops|, i requires 0 <= i < |ops| => EntryOf(ops[i], base + i))
  }

  // ----- the steps -----

  datatype Step =
    | Enqueue(waiter: Waiter)
    | Lead
    | BackgroundError(status: Status)
    | MakeRoom(status: Status, n: nat)
    | AppendLog(status: Status)
    | SyncLog(status: Status)
    | InsertOne
    | Finish
    | StartRead(reader: nat, key: UserKey)

  function GroupOps(s: State): (r: seq<Op>) {
    if s.phase.Writing? && s.phase.n <= |s.queue| then OpsOf(s.queue[..s.phase.n]) else []
  }

  ghost predicate Enabled(s: State, step: Step) {
    match step
    case Enqueue(w) => w.id !in s.arrivals
    case Lead => s.phase.Idle? && s.queue != []
    case BackgroundError(st) => st != OK
    case MakeRoom(st, n) =>
      s.phase.Making? && s.queue != [] && (s.error != OK ==> st == s.error) &&
      (st == OK && s.queue[0].batch.Some? ==>
         IsGroup(s.queue, n) && s.lastSequence + 1 + |OpsOf(s.queue[..n])| <= MAX_SEQUENCE)
    case AppendLog(_) => s.phase.Writing? && s.phase.stage.Logging?
    case SyncLog(_) => s.phase.Writing? && s.phase.stage.Syncing?
    case InsertOne => s.phase.Writing? && s.phase.stage.Inserting? && s.phase.inserted < |GroupOps(s)|
    case Finish =>
      s.phase.Writing? && s.phase.n <= |s.queue| &&
      (s.phase.stage.Settled? || (s.phase.stage.Inserting? && s.phase.inserted == |GroupOps(s)|))
    case StartRead(r, _) => r !in s.readers
  }

  function Acks(members: seq<Waiter>, status: Status): (acks: seq<(nat, Status)>)
    ensures |acks| == |members|
  {
    seq(|members|, i requires 0 <= i < |members| => (members[i].id, status))
  }

  /** Pops the first `n` waiters and wakes them with one status. */
  function Acknowledge(s: State, n: nat, ops: seq<Op>, status: Status, syncError: bool, record: Option<nat>): (r: State)
    requires n <= |s.queue|
  {
    var members := s.queue[..n];
    s.(queue := s.queue[n..], acks := s.acks + Acks(members, status), phase := Idle,
       lastSequence := s.lastSequence + |ops|,
       error := if syncError && s.error == OK then status else s.error,
       history := s.history + [Group(members, s.lastSequence + 1, ops, status, syncError, record)])
  }

  ghost function Do(s: State, step: Step): (r: State)
    requires Enabled(s, step)
  {
    match step
    case Enqueue(w) => s.(arrivals := s.arrivals + [w.id], queue := s.queue + [w])
    case Lead => s.(phase := Making)
    case BackgroundError(st) => if s.error == OK then s.(error := st) else s
    case MakeRoom(st, n) =>
      if st == OK && s.queue[0].batch.Some? then s.(phase := Writing(n, Logging, OK, 0, false))
      else Acknowledge(s, 1, [], st, false, None)
    case AppendLog(st) =>
      if st != OK then s.(phase := s.phase.(stage := Settled, status := st))
      else
        s.(log := s.log + [LogRecord(s.lastSequence + 1, GroupOps(s))],
           phase := s.phase.(stage := if s.queue != [] && s.queue[0].sync then Syncing else Inserting))
    case SyncLog(st) =>
      if st != OK then s.(phase := s.phase.(stage := Settled, status := st, syncError := true))
      else s.(synced := |s.log|, phase := s.phase.(stage := Inserting))
    case InsertOne =>
      var i := s.phase.inserted;
      if s.lastSequence + 1 + i <= MAX_SEQUENCE then
        s.(store := s.store + [EntryOf(GroupOps(s)[i], s.lastSequence + 1 + i)], phase := s.phase.(inserted := i + 1))
      else s
    case Finish =>
      Acknowledge(s, s.phase.n, GroupOps(s), s.phase.status, s.phase.syncError,
                  if s.phase.status == OK && s.log != [] then Some(|s.log| - 1) else None)
    case StartRead(r, k) => s.(readers := s.readers[r := Read(k, s.lastSequence, |s.history|)])
  }

  // ----- what the history says -----

  function LastOf(history: seq<Group>): (r: nat) {
    if history == [] then 0 else LastOf(history[..|history| - 1]) + |history[|history| - 1].ops|
  }

  /** What a group leaves in the memtable when it is done. */
  function GroupEntries(last: nat, g: Group): (r: seq<Entry>)
    requires last + 1 + |g.ops| <= MAX_SEQUENCE
  {
    if g.status == OK then EntriesFrom(last + 1, g.ops) else []
  }

  /** The entries of the groups that succeeded, in the order they were written. */
  function StoreOf(history: seq<Group>): (r: seq<Entry>)
    requires LastOf(history) < MAX_SEQUENCE
  {
    if history == [] then []
    else
      var front, g := history[..|history| - 1], history[|history| - 1];
      StoreOf(front) + GroupEntries(LastOf(front), g)
  }

  function IdsOf(ws: seq<Waiter>): (ids: seq<nat>)
    ensures |ids| == |ws| && forall i :: 0 <= i < |ws| ==> ids[i] == ws[i].id
  {
    seq(|ws|, i requires 0 <= i < |ws| => ws[i].id)
  }

  function Acked(acks: seq<(nat, Status)>): (ids: seq<nat>)
    ensures |ids| == |acks|
  {
    seq(|acks|, i requires 0 <= i < |acks| => acks[i].0)
  }

  function AcksOf(history: seq<Group>): (r: seq<(nat, Status)>) {
    if history == [] then []
    else AcksOf(history[..|history| - 1]) + Acks(history[|history| - 1].members, history[|history| - 1].status)
  }

  // ----- invariants -----

  ghost predicate Distinct(ids: seq<nat>) {
    forall i, j :: 0 <= i < j < |ids| ==> ids[i] != ids[j]
  }

  /** Every writer that came is acknowledged or still queued, in the order of arrival. */
  ghost predicate InOrder(s: State) {
    Queued(s.arrivals, s.acks, s.queue) && Distinct(s.arrivals) && s.acks == AcksOf(s.history)
  }

  ghost predicate Queued(arrivals: seq<nat>, acks: seq<(nat, Status)>, queue: seq<Waiter>) {
    arrivals == Acked(acks) + IdsOf(queue)
  }

  /** The front of the queue leads, with a group formed under the size and sync rules. */
  ghost predicate Joined(queue: seq<Waiter>, n: nat) {
    1 <= n <= |queue| && forall i {:trigger JoinsAt(queue, i)} :: 1 <= i < n ==> JoinsAt(queue, i)
  }

  ghost predicate OneLeader(s: State) {
    (s.phase.Making? ==> s.queue != []) &&
    (s.phase.Writing? ==>
      var p := s.phase;
      Joined(s.queue, p.n) && s.queue[0].batch.Some? && s.lastSequence + 1 + |GroupOps(s)| <= MAX_SEQUENCE &&
      p.inserted <= |GroupOps(s)| && (p.status == OK <==> !p.stage.Settled?) && (!p.stage.Inserting? ==> p.inserted == 0) &&
      (p.syncError ==> p.stage.Settled?) && (p.stage.Syncing? ==> s.queue[0].sync))
  }

  /** The entries the current group has put in the memtable so far. */
  ghost function Unfinished(s: State): (r: seq<Entry>)
    requires OneLeader(s)
  {
    if s.phase.Writing? then EntriesFrom(s.lastSequence + 1, GroupOps(s))[..s.phase.inserted] else []
  }

  /** Groups have contiguous ranges of sequence numbers, in the order of the queue. */
  ghost predicate Contiguous(history: seq<Group>) {
    history == [] ||
    (Contiguous(history[..|history| - 1]) && history[|history| - 1].base == LastOf(history[..|history| - 1]) + 1)
  }

  ghost predicate Stored(store: seq<Entry>, history: seq<Group>, last: nat, unfinished: seq<Entry>) {
    last == LastOf(history) < MAX_SEQUENCE && store == StoreOf(history) + unfinished
  }

  ghost predicate Numbered(s: State) {
    OneLeader(s) && Contiguous(s.history) && Stored(s.store, s.history, s.lastSequence, Unfinished(s))
  }

  ghost predicate GoodGroup(g: Group, log: seq<LogRecord>, synced: nat) {
    g.members != [] &&
    (forall i :: 0 <= i < |g.members| && g.members[i].sync ==> g.members[0].sync) &&
    (g.status == OK ==> g.ops == OpsOf(g.members)) &&
    (g.status == OK && g.members[0].batch.Some? ==>
      g.record.Some? && g.record.value < |log| && log[g.record.value] == LogRecord(g.base, g.ops)
      && (g.members[0].sync ==> g.record.value < synced))
  }

  ghost predicate Logged(s: State) {
    s.synced <= |s.log| && (forall g :: 0 <= g < |s.history| ==> GoodGroup(s.history[g], s.log, s.synced)) &&
    (s.phase.Writing? && (s.phase.stage.Syncing? || s.phase.stage.Inserting?) ==>
      s.queue != [] && s.log != [] && s.log[|s.log| - 1] == LogRecord(s.lastSequence + 1, GroupOps(s)) &&
      (s.phase.stage.Inserting? && s.queue[0].sync ==> s.synced == |s.log|))
  }

  ghost predicate ReadsPlaced(s: State) {
    forall r :: r in s.readers ==>
      s.readers[r].after <= |s.history| && s.readers[r].snapshot == LastOf(s.history[..s.readers[r].after])
  }

  ghost predicate SyncFailed(history: seq<Group>) {
    exists g :: 0 <= g < |history| && history[g].syncError
  }

  /** Once a sync has failed, nothing succeeds any more. */
  ghost predicate Sealed(s: State) {
    (SyncFailed(s.history) ==> s.error != OK && !s.phase.Writing?) &&
    (forall g, h :: 0 <= g < h < |s.history| && s.history[g].syncError ==> s.history[h].status != OK) &&
    (s.phase.Writing? && s.phase.syncError ==> s.phase.status != OK)
  }

  ghost predicate Inv(s: State) {
    InOrder(s) && OneLeader(s) && Numbered(s) && Logged(s) && ReadsPlaced(s) && Sealed(s)
  }

  lemma InitialInv()
    ensures Inv(INITIAL)
  {}

  // ----- preservation -----

  lemma SnocHistory(history: seq<Group>, g: Group)
    ensures LastOf(history + [g]) == LastOf(history) + |g.ops|
    ensures AcksOf(history + [g]) == AcksOf(history) + Acks(g.members, g.status)
    ensures LastOf(history + [g]) < MAX_SEQUENCE ==>
              StoreOf(history + [g]) == StoreOf(history) + GroupEntries(LastOf(history), g)
  {
    assert (history + [g])[..|history|] == history;
  }

  /** What acknowledging the front of the queue does to the order. */
  lemma SplitIds(queue: seq<Waiter>, n: nat)
    requires n <= |queue|
    ensures IdsOf(queue) == IdsOf(queue[..n]) + IdsOf(queue[n..])
  {}

  lemma AckedConcat(acks: seq<(nat, Status)>, members: seq<Waiter>, st: Status)
    ensures Acked(acks + Acks(members, st)) == Acked(acks) + IdsOf(members)
  {}

  lemma PopsQueued(arrivals: seq<nat>, acks: seq<(nat, Status)>, queue: seq<Waiter>, n: nat, st: Status)
    requires Queued(arrivals, acks, queue) && n <= |queue|
    ensures Queued(arrivals, acks + Acks(queue[..n], st), queue[n..])
  {
    SplitIds(queue, n);
    AckedConcat(acks, queue[..n], st);
    Associate(Acked(acks), IdsOf(queue[..n]), IdsOf(queue[n..]));
  }

  lemma AcknowledgeKeepsOrder(s: State, n: nat, ops: seq<Op>, status: Status, syncError: bool, record: Option<nat>)
    requires InOrder(s) && n <= |s.queue|
    ensures InOrder(Acknowledge(s, n, ops, status, syncError, record))
  {
    SnocHistory(s.history, Group(s.queue[..n], s.lastSequence + 1, ops, status, syncError, record));
    PopsQueued(s.arrivals, s.acks, s.queue, n, status);
  }

  lemma KeepsOrder(s: State, step: Step)
    requires InOrder(s) && Enabled(s, step)
    ensures InOrder(Do(s, step))
  {
    match step
    case Enqueue(w) =>
      assert IdsOf(s.queue + [w]) == IdsOf(s.queue) + [w.id];
    case MakeRoom(st, n) =>
      if !(st == OK && s.queue[0].batch.Some?) { AcknowledgeKeepsOrder(s, 1, [], st, false, None); }
    case Finish =>
      var t := Do(s, step);
      AcknowledgeKeepsOrder(s, s.phase.n, GroupOps(s), s.phase.status, s.phase.syncError, t.history[|s.history|].record);
    case _ =>
  }

  /** More arrivals do not change a group that has formed. */
  lemma GroupStands(queue: seq<Waiter>, w: Waiter, n: nat)
    requires Joined(queue, n)
    ensures Joined(queue + [w], n) && (queue + [w])[..n] == queue[..n]
  {
    forall i: nat | 1 <= i < n ensures JoinsAt(queue + [w], i) {
      assert (queue + [w])[..i] == queue[..i];
      assert JoinsAt(queue, i);
    }
  }

  lemma KeepsLeader(s: State, step: Step)
    requires OneLeader(s) && Enabled(s, step)
    ensures OneLeader(Do(s, step))
  {
    match step
    case Enqueue(w) =>
      if s.phase.Writing? { GroupStands(s.queue, w, s.phase.n); }
    case _ =>
  }

  lemma StoreGrows(s: State)
    requires OneLeader(s) && Enabled(s, InsertOne)
    ensures Unfinished(s) + [EntryOf(GroupOps(s)[s.phase.inserted], s.lastSequence + 1 + s.phase.inserted)]
            == EntriesFrom(s.lastSequence + 1, GroupOps(s))[..s.phase.inserted + 1]
  {}

  lemma SnocContiguous(history: seq<Group>, g: Group)
    requires Contiguous(history) && g.base == LastOf(history) + 1
    ensures Contiguous(history + [g])
  {
    assert (history + [g])[..|history|] == history;
  }

  lemma SnocStored(store: seq<Entry>, history: seq<Group>, last: nat, unfinished: seq<Entry>, g: Group)
    requires Stored(store, history, last, unfinished) && last + 1 + |g.ops| <= MAX_SEQUENCE
    requires unfinished == if g.status == OK then EntriesFrom(last + 1, g.ops) else []
    ensures Stored(store, history + [g], last + |g.ops|, [])
  {
    SnocHistory(history, g);
    assert store + [] == store;
  }

  lemma IdleNumbers(t: State)
    requires t.phase.Idle? && Contiguous(t.history) && Stored(t.store, t.history, t.lastSequence, [])
    ensures Numbered(t)
  {}

  lemma AcknowledgeKeepsNumbers(s: State, n: nat, ops: seq<Op>, status: Status, syncError: bool, record: Option<nat>, unfinished: seq<Entry>)
    requires Contiguous(s.history) && Stored(s.store, s.history, s.lastSequence, unfinished)
    requires n <= |s.queue| && s.lastSequence + 1 + |ops| <= MAX_SEQUENCE
    requires unfinished == if status == OK then EntriesFrom(s.lastSequence + 1, ops) else []
    ensures Numbered(Acknowledge(s, n, ops, status, syncError, record))
  {
    var g := Group(s.queue[..n], s.lastSequence + 1, ops, status, syncError, record);
    SnocContiguous(s.history, g);
    SnocStored(s.store, s.history, s.lastSequence, unfinished, g);
    IdleNumbers(Acknowledge(s, n, ops, status, syncError, record));
  }

  lemma InsertStored(store: seq<Entry>, history: seq<Group>, last: nat, unfinished: seq<Entry>, e: Entry)
    requires Stored(store, history, last, unfinished)
    ensures Stored(store + [e], history, last, unfinished + [e])
  {
    Associate(StoreOf(history), unfinished, [e]);
  }

  lemma InsertKeepsNumbers(s: State)
    requires Numbered(s) && Enabled(s, InsertOne)
    ensures Numbered(Do(s, InsertOne))
  {
    KeepsLeader(s, InsertOne);
    StoreGrows(s);
    var t, e := Do(s, InsertOne), EntryOf(GroupOps(s)[s.phase.inserted], s.lastSequence + 1 + s.phase.inserted);
    assert t.store == s.store + [e] && Unfinished(t) == Unfinished(s) + [e];
    InsertStored(s.store, s.history, s.lastSequence, Unfinished(s), e);
  }

  lemma FinishKeepsNumbers(s: State)
    requires Numbered(s) && Enabled(s, Finish)
    ensures Numbered(Do(s, Finish))
  {
    var t := Do(s, Finish);
    AcknowledgeKeepsNumbers(s, s.phase.n, GroupOps(s), s.phase.status, s.phase.syncError, t.history[|s.history|].record, Unfinished(s));
  }

  /** A step that leaves the store, the group and the history alone. */
  lemma SameNumbers(s: State, t: State)
    requires Numbered(s) && OneLeader(t)
    requires t.history == s.history && t.lastSequence == s.lastSequence && t.store == s.store
    requires Unfinished(t) == Unfinished(s)
    ensures Numbered(t)
  {}

  lemma KeepsNumbers(s: State, step: Step)
    requires Numbered(s) && Enabled(s, step)
    ensures Numbered(Do(s, step))
  {
    KeepsLeader(s, step);
    match step
    case Enqueue(w) =>
      if s.phase.Writing? { GroupStands(s.queue, w, s.phase.n); }
      SameNumbers(s, Do(s, step));
    case MakeRoom(st, n) =>
      if st == OK && s.queue[0].batch.Some? {
        SameNumbers(s, Do(s, step));
      } else {
        AcknowledgeKeepsNumbers(s, 1, [], st, false, None, []);
      }
    case InsertOne =>
      InsertKeepsNumbers(s);
    case Finish =>
      FinishKeepsNumbers(s);
    case _ =>
      SameNumbers(s, Do(s, step));
  }

  lemma NoSyncRides(queue: seq<Waiter>, n: nat)
    requires Joined(queue, n)
    ensures forall i :: 0 <= i < n && queue[..n][i].sync ==> queue[..n][0].sync
  {
    forall i | 1 <= i < n ensures queue[i].sync ==> queue[0].sync {
      assert JoinsAt(queue, i);
    }
  }

  lemma KeepsGroups(s: State, step: Step)
    requires Logged(s) && Enabled(s, step)
    ensures forall g :: 0 <= g < |s.history| ==> GoodGroup(s.history[g], Do(s, step).log, Do(s, step).synced)
  {}

  lemma OneIsGood(w: Waiter, base: nat, st: Status, log: seq<LogRecord>, synced: nat)
    requires !(st == OK && w.batch.Some?)
    ensures GoodGroup(Group([w], base, [], st, false, None), log, synced)
  {
    PrefixStep([w], 0);
    assert [w][..1] == [w];
  }

  lemma FinishedIsGood(s: State)
    requires OneLeader(s) && Logged(s) && Enabled(s, Finish)
    ensures var t := Do(s, Finish); GoodGroup(t.history[|s.history|], s.log, s.synced)
  {
    NoSyncRides(s.queue, s.phase.n);
  }

  lemma KeepsLog(s: State, step: Step)
    requires OneLeader(s) && Logged(s) && Enabled(s, step)
    ensures Logged(Do(s, step))
  {
    KeepsGroups(s, step);
    match step
    case Enqueue(w) =>
      if s.phase.Writing? { GroupStands(s.queue, w, s.phase.n); }
    case MakeRoom(st, n) =>
      if !(st == OK && s.queue[0].batch.Some?) {
        assert s.queue[..1] == [s.queue[0]];
        OneIsGood(s.queue[0], s.lastSequence + 1, st, s.log, s.synced);
      }
    case Finish =>
      FinishedIsGood(s);
    case _ =>
  }

  lemma KeepsReads(s: State, step: Step)
    requires ReadsPlaced(s) && s.lastSequence == LastOf(s.history) && Enabled(s, step)
    ensures ReadsPlaced(Do(s, step))
  {
    var t := Do(s, step);
    assert s.history[..|s.history|] == s.history;
    forall r | r in t.readers && r in s.readers
      ensures t.history[..t.readers[r].after] == s.history[..s.readers[r].after]
    {}
  }

  lemma SealedGrows(history: seq<Group>, g: Group)
    requires forall a, b :: 0 <= a < b < |history| && history[a].syncError ==> history[b].status != OK
    requires SyncFailed(history) ==> g.status != OK
    ensures forall a, b :: 0 <= a < b < |history + [g]| && (history + [g])[a].syncError ==> (history + [g])[b].status != OK
    ensures SyncFailed(history + [g]) ==> SyncFailed(history) || g.syncError
  {
    forall a | 0 <= a < |history| && history[a].syncError ensures g.status != OK {
      assert SyncFailed(history);
    }
    if SyncFailed(history + [g]) {
      var a :| 0 <= a < |history + [g]| && (history + [g])[a].syncError;
      if a < |history| { assert SyncFailed(history); }
    }
  }

  lemma KeepsSealed(s: State, step: Step)
    requires Sealed(s) && Enabled(s, step)
    ensures Sealed(Do(s, step))
  {
    var t := Do(s, step);
    if t.history != s.history {
      assert t.history == s.history + [t.history[|s.history|]];
      SealedGrows(s.history, t.history[|s.history|]);
    }
  }

  // ----- runs -----

  ghost predicate Legal(s: State, steps: seq<Step>)
    decreases |steps|
  {
    steps == [] || (Enabled(s, steps[0]) && Legal(Do(s, steps[0]), steps[1..]))
  }

  ghost function Final(s: State, steps: seq<Step>): (r: State)
    requires Legal(s, steps)
    decreases |steps|
  {
    if steps == [] then s else Final(Do(s, steps[0]), steps[1..])
  }

  lemma StepKeepsInv(s: State, step: Step)
    requires Inv(s) && Enabled(s, step)
    ensures Inv(Do(s, step))
  {
    KeepsOrder(s, step);
    KeepsLeader(s, step);
    KeepsNumbers(s, step);
    KeepsLog(s, step);
    KeepsReads(s, step);
    KeepsSealed(s, step);
  }

  lemma {:induction false} RunKeepsInv(s: State, steps: seq<Step>)
    requires Inv(s) && Legal(s, steps)
    ensures Inv(Final(s, steps))
    decreases |steps|
  {
    if steps != [] {
      StepKeepsInv(s, steps[0]);
      RunKeepsInv(Do(s, steps[0]), steps[1..]);
    }
  }

  ghost predicate Reached(s: State, steps: seq<Step>) {
    Legal(INITIAL, steps) && s == Final(INITIAL, steps)
  }

  // ----- what every run keeps -----

  /** How many writers were acknowledged before group `g`. */
  function MembersBefore(history: seq<Group>, g: nat): (n: nat)
    requires g <= |history|
  {
    if g == 0 then 0 else MembersBefore(history, g - 1) + |history[g - 1].members|
  }

  lemma {:induction false} BeforeInFront(history: seq<Group>, n: nat, g: nat)
    requires g <= n <= |history|
    ensures MembersBefore(history[..n], g) == MembersBefore(history, g)
    decreases g
  {
    if g > 0 { BeforeInFront(history, n, g - 1); }
  }

  lemma {:induction false} AckIs(history: seq<Group>, g: nat, m: nat)
    requires g < |history| && m < |history[g].members|
    ensures var a := MembersBefore(history, g) + m;
            a < |AcksOf(history)| && AcksOf(history)[a] == (history[g].members[m].id, history[g].status)
    ensures |AcksOf(history)| == MembersBefore(history, |history|)
    decreases |history|
  {
    var n := |history| - 1;
    AcksCount(history);
    AcksCount(history[..n]);
    BeforeInFront(history, n, n);
    if g < n {
      AckIs(history[..n], g, m);
      BeforeInFront(history, n, g);
    }
  }

  lemma {:induction false} AcksCount(history: seq<Group>)
    ensures |AcksOf(history)| == MembersBefore(history, |history|)
    decreases |history|
  {
    if history != [] {
      AcksCount(history[..|history| - 1]);
      BeforeInFront(history, |history| - 1, |history| - 1);
    }
  }

  /** Each member of each group was told the group's status, in order. */
  ghost predicate Told(history: seq<Group>, acks: seq<(nat, Status)>) {
    |acks| == MembersBefore(history, |history|) &&
    forall g, m :: 0 <= g < |history| && 0 <= m < |history[g].members| ==>
      var a := MembersBefore(history, g) + m;
      a < |acks| && acks[a] == (history[g].members[m].id, history[g].status)
  }

  lemma AllAcks(history: seq<Group>)
    ensures Told(history, AcksOf(history))
  {
    AcksCount(history);
    forall g: nat, m: nat | g < |history| && m < |history[g].members|
      ensures var a := MembersBefore(history, g) + m;
              a < |AcksOf(history)| && AcksOf(history)[a] == (history[g].members[m].id, history[g].status)
    {
      AckIs(history, g, m);
    }
  }

  /** Where a member asks for a sync, the leader does. */
  ghost predicate LeadersSync(history: seq<Group>) {
    forall g, i :: 0 <= g < |history| && 0 <= i < |history[g].members| && history[g].members[i].sync ==> history[g].members[0].sync
  }

  lemma GoodGroupsSync(s: State)
    requires Logged(s)
    ensures LeadersSync(s.history)
  {
    forall g | 0 <= g < |s.history| ensures GoodGroup(s.history[g], s.log, s.synced) {}
  }

  /** In every interleaving: writers are acknowledged once each, in the order they
      came, with the status of their group; and no sync write rides with a leader
      that does not sync. */
  lemma EachWriterOnce(s: State, steps: seq<Step>)
    requires Reached(s, steps)
    ensures s.arrivals == Acked(s.acks) + IdsOf(s.queue) && Distinct(s.arrivals)
    ensures Told(s.history, s.acks) && LeadersSync(s.history)
  {
    InitialInv();
    RunKeepsInv(INITIAL, steps);
    AllAcks(s.history);
    GoodGroupsSync(s);
  }

  /** A successful sync write was in the log, and the log synced, before it was
      acknowledged; and after a failed sync no write succeeds. */
  lemma SyncIsHonoured(s: State, steps: seq<Step>, g: nat)
    requires Reached(s, steps) && g < |s.history| && s.history[g].members != []
    ensures var G := s.history[g];
            G.status == OK && G.members[0].batch.Some? ==>
              exists r :: 0 <= r < |s.log| && s.log[r] == LogRecord(G.base, OpsOf(G.members)) && (G.members[0].sync ==> r < s.synced)
    ensures forall h :: g < h < |s.history| && s.history[g].syncError ==> s.history[h].status != OK
  {
    InitialInv();
    RunKeepsInv(INITIAL, steps);
    assert GoodGroup(s.history[g], s.log, s.synced);
  }

  // ----- background errors -----

  /** A step once there is a background error. */
  lemma ErrorStep(s: State, step: Step)
    requires Enabled(s, step) && s.error != OK
    ensures var t := Do(s, step);
            t.error == s.error && (t.phase.Writing? ==> s.phase.Writing? && t.history == s.history) &&
            (t.history == s.history ||
             (t.history[..|s.history|] == s.history && |t.history| == |s.history| + 1 && !t.phase.Writing? &&
              (s.phase.Writing? || t.history[|s.history|].status == s.error)))
  {}

  /** The first background error stands, and every write acknowledged from then on is
      told it, but for the group that was being written. */
  lemma {:induction false} FirstErrorStands(s: State, steps: seq<Step>)
    requires Legal(s, steps) && s.error != OK
    ensures var t, busy := Final(s, steps), if s.phase.Writing? then 1 else 0;
            t.error == s.error && s.history <= t.history && (t.phase.Writing? ==> s.phase.Writing? && t.history == s.history) &&
            forall g :: |s.history| + busy <= g < |t.history| ==> t.history[g].status == s.error
    decreases |steps|
  {
    if steps != [] {
      ErrorStep(s, steps[0]);
      FirstErrorStands(Do(s, steps[0]), steps[1..]);
    }
  }

  /** A failed sync of the log, or an error of a background thread. */
  predicate Causes(step: Step) {
    step.BackgroundError? || (step.SyncLog? && step.status != OK)
  }

  lemma {:induction false} NoErrorAlone(s: State, steps: seq<Step>)
    requires Legal(s, steps) && s.error == OK && !(s.phase.Writing? && s.phase.syncError)
    requires forall i :: 0 <= i < |steps| ==> !Causes(steps[i])
    ensures Final(s, steps).error == OK
    decreases |steps|
  {
    if steps != [] { NoErrorAlone(Do(s, steps[0]), steps[1..]); }
  }

  /** Writing stops for nothing else: a log record that cannot be appended, or a failed
      batch, is no background error. */
  lemma ErrorHasCause(steps: seq<Step>)
    requires Legal(INITIAL, steps) && Final(INITIAL, steps).error != OK
    ensures exists i :: 0 <= i < |steps| && Causes(steps[i])
  {
    if forall i :: 0 <= i < |steps| ==> !Causes(steps[i]) { NoErrorAlone(INITIAL, steps); }
  }

  // ----- what a read sees -----

  function Apply(m: map<UserKey, Bytes>, ops: seq<Op>): (r: map<UserKey, Bytes>) {
    if ops == [] then m
    else
      var front := Apply(m, ops[..|ops| - 1]);
      match ops[|ops| - 1]
      case Put(k, v) => front[k := v]
      case Delete(k) => front - {k}
  }

  /** The database as a map: the batches of the successful groups, one after the other. */
  function MapOf(history: seq<Group>): (r: map<UserKey, Bytes>) {
    if history == [] then map[]
    else
      var g := history[|history| - 1];
      if g.status == OK then Apply(MapOf(history[..|history| - 1]), g.ops) else MapOf(history[..|history| - 1])
  }

  function Find(m: map<UserKey, Bytes>, k: UserKey): (r: Option<Bytes>) {
    if k in m then Some(m[k]) else None
  }

  /** The last word on a key. */
  function LastEntry(es: seq<Entry>, k: UserKey): (r: Option<Bytes>) {
    if es == [] then None
    else if es[|es| - 1].key.user == k then Content(es[|es| - 1])
    else LastEntry(es[..|es| - 1], k)
  }

  lemma {:induction false} LastOfBatch(m: map<UserKey, Bytes>, es: seq<Entry>, base: nat, ops: seq<Op>, k: UserKey)
    requires base + |ops| <= MAX_SEQUENCE && Find(m, k) == LastEntry(es, k)
    ensures Find(Apply(m, ops), k) == LastEntry(es + EntriesFrom(base, ops), k)
    decreases |ops|
  {
    if ops == [] {
      assert es + EntriesFrom(base, ops) == es;
    } else {
      var front := ops[..|ops| - 1];
      LastOfBatch(m, es, base, front, k);
      var all := es + EntriesFrom(base, ops);
      assert all[..|all| - 1] == es + EntriesFrom(base, front);
    }
  }

  lemma {:induction false} MapIsLastEntry(history: seq<Group>, k: UserKey)
    requires LastOf(history) < MAX_SEQUENCE
    ensures Find(MapOf(history), k) == LastEntry(StoreOf(history), k)
    decreases |history|
  {
    if history != [] {
      var front, g := history[..|history| - 1], history[|history| - 1];
      MapIsLastEntry(front, k);
      if g.status == OK {
        LastOfBatch(MapOf(front), StoreOf(front), LastOf(front) + 1, g.ops, k);
      } else {
        assert StoreOf(front) + [] == StoreOf(front);
      }
    }
  }

  lemma GroupRises(last: nat, g: Group)
    requires last + 1 + |g.ops| <= MAX_SEQUENCE
    ensures Rising(GroupEntries(last, g), last, last + |g.ops|)
  {}

  lemma {:induction false} StoreRises(history: seq<Group>)
    requires LastOf(history) < MAX_SEQUENCE
    ensures Rising(StoreOf(history), 0, LastOf(history))
    decreases |history|
  {
    if history != [] {
      var front, g := history[..|history| - 1], history[|history| - 1];
      StoreRises(front);
      GroupRises(LastOf(front), g);
      RisingConcat(StoreOf(front), GroupEntries(LastOf(front), g), 0, LastOf(front), LastOf(history));
    }
  }

  /** Later groups only add later entries. */
  lemma {:induction false} StorePrefix(history: seq<Group>, n: nat) returns (later: seq<Entry>)
    requires LastOf(history) < MAX_SEQUENCE && n <= |history|
    ensures LastOf(history[..n]) <= LastOf(history) && StoreOf(history) == StoreOf(history[..n]) + later
    ensures Rising(later, LastOf(history[..n]), LastOf(history))
    decreases |history|
  {
    if n == |history| {
      assert history[..n] == history;
      later := [];
    } else {
      var front, g := history[..|history| - 1], history[|history| - 1];
      assert front[..n] == history[..n];
      var first := StorePrefix(front, n);
      var more := GroupEntries(LastOf(front), g);
      GroupRises(LastOf(front), g);
      RisingConcat(first, more, LastOf(front[..n]), LastOf(front), LastOf(history));
      Associate(StoreOf(front[..n]), first, more);
      later := first + more;
    }
  }

  lemma Associate<T>(a: seq<T>, b: seq<T>, c: seq<T>)
    ensures (a + b) + c == a + (b + c)
  {}

  lemma {:induction false} LastEntryIs(es: seq<Entry>, k: UserKey) returns (i: int)
    ensures -1 <= i < |es| && forall j :: i < j < |es| ==> es[j].key.user != k
    ensures if i == -1 then LastEntry(es, k) == None else es[i].key.user == k && LastEntry(es, k) == Content(es[i])
    decreases |es|
  {
    if es == [] {
      i := -1;
    } else if es[|es| - 1].key.user == k {
      i := |es| - 1;
    } else {
      i := LastEntryIs(es[..|es| - 1], k);
    }
  }

  /** A lookup at `s` finds the last entry of the part numbered up to `s`. */
  lemma LookupFindsLast(a: seq<Entry>, b: seq<Entry>, k: UserKey, s: SequenceNumber, high: nat)
    requires Rising(a, 0, s) && Rising(b, s, high) && s <= high
    ensures Answer(AsSet(a + b), k, s) == LastEntry(a, k)
  {
    var es := AsSet(a + b);
    var i := LastEntryIs(a, k);
    forall e | e in es && Visible(e, k, s) ensures i >= 0 && e.key.sn <= a[i].key.sn {
      var j :| 0 <= j < |a + b| && (a + b)[j] == e;
      assert j < |a| && a[j] == e;
    }
    if i >= 0 {
      assert a[i] in es;
      assert IsNewest(es, k, s, a[i]);
      RisingConcat(a, b, 0, s, high);
      RisingIsDistinct(a + b, 0, high);
      AnswerIs(es, k, s, a[i]);
    } else {
      AnswerCases(es, k, s);
    }
  }

  lemma ReadIsMap(history: seq<Group>, n: nat, unfinished: seq<Entry>, high: nat, k: UserKey)
    requires LastOf(history) < MAX_SEQUENCE && n <= |history| && Rising(unfinished, LastOf(history), high) && LastOf(history) <= high
    ensures LastOf(history[..n]) < MAX_SEQUENCE
    ensures Answer(AsSet(StoreOf(history) + unfinished), k, LastOf(history[..n])) == Find(MapOf(history[..n]), k)
  {
    var seen := history[..n];
    var later := StorePrefix(history, n);
    StoreRises(seen);
    RisingConcat(later, unfinished, LastOf(seen), LastOf(history), high);
    Associate(StoreOf(seen), later, unfinished);
    LookupFindsLast(StoreOf(seen), later + unfinished, k, LastOf(seen), high);
    MapIsLastEntry(seen, k);
  }

  lemma ReachedFacts(s: State, steps: seq<Step>)
    requires Reached(s, steps)
    ensures Numbered(s) && ReadsPlaced(s)
  {
    InitialInv();
    RunKeepsInv(INITIAL, steps);
  }

  /** In every interleaving, a read that began after `after` groups answers, however
      late it looks, as the map that the successful ones among them made: all of
      each such group, and nothing of a later or unfinished one. */
  lemma ReadsAreAtomic(s: State, steps: seq<Step>, r: nat)
    requires Reached(s, steps) && r in s.readers
    ensures var read := s.readers[r];
            read.after <= |s.history| && read.snapshot <= MAX_SEQUENCE &&
            Answer(AsSet(s.store), read.key, read.snapshot) == Find(MapOf(s.history[..read.after]), read.key)
  {
    ReachedFacts(s, steps);
    UnfinishedRises(s);
    ReadIsMap(s.history, s.readers[r].after, Unfinished(s), s.lastSequence + |Unfinished(s)|, s.readers[r].key);
  }

  lemma UnfinishedRises(s: State)
    requires OneLeader(s)
    ensures Rising(Unfinished(s), s.lastSequence, s.lastSequence + |Unfinished(s)|)
  {}

  // ----- what a read finds at the moment it begins -----

  lemma {:induction false} LegalParts(s: State, steps: seq<Step>, i: nat)
    requires Legal(s, steps) && i <= |steps|
    ensures Legal(s, steps[..i]) && Legal(Final(s, steps[..i]), steps[i..])
    ensures Final(Final(s, steps[..i]), steps[i..]) == Final(s, steps)
    decreases i
  {
    if i == 0 {
      assert steps[..0] == [] && steps[0..] == steps;
    } else {
      LegalParts(Do(s, steps[0]), steps[1..], i - 1);
      assert steps[..i][0] == steps[0] && steps[..i][1..] == steps[1..][..i - 1];
      assert steps[1..][i - 1..] == steps[i..];
    }
  }

  /** Later steps only add groups to the history, and leave a read as it began. */
  lemma StepKeepsRead(s: State, step: Step, r: nat)
    requires Enabled(s, step) && r in s.readers
    ensures var t := Do(s, step); r in t.readers && t.readers[r] == s.readers[r] && s.history <= t.history
  {}

  lemma {:induction false} RunKeepsRead(s: State, steps: seq<Step>, r: nat)
    requires Legal(s, steps) && r in s.readers
    ensures var t := Final(s, steps); r in t.readers && t.readers[r] == s.readers[r] && s.history <= t.history
    decreases |steps|
  {
    if steps != [] {
      StepKeepsRead(s, steps[0], r);
      RunKeepsRead(Do(s, steps[0]), steps[1..], r);
    }
  }

  /** The state in which step `i` of a run is taken. */
  ghost function StateAt(steps: seq<Step>, i: nat): (s: State)
    requires Legal(INITIAL, steps) && i <= |steps|
  {
    LegalParts(INITIAL, steps, i);
    Final(INITIAL, steps[..i])
  }

  /** In every interleaving, whenever a read that step `i` began looks at the store, it
      finds what all the groups that had succeeded at step `i` made, and nothing else. */
  lemma ReadIsOfItsMoment(steps: seq<Step>, i: nat, j: nat, r: nat, k: UserKey)
    requires Legal(INITIAL, steps) && i < j <= |steps| && steps[i] == StartRead(r, k)
    ensures var s := StateAt(steps, j);
            r in s.readers && s.readers[r].snapshot <= MAX_SEQUENCE &&
            Answer(AsSet(s.store), k, s.readers[r].snapshot) == Find(MapOf(StateAt(steps, i).history), k)
  {
    var t, s := StateAt(steps, i), StateAt(steps, j);
    var first := steps[..j];
    LegalParts(INITIAL, steps, j);
    LegalParts(INITIAL, first, i);
    assert first[..i] == steps[..i] && first[i] == steps[i];
    var rest := first[i..];
    assert rest[0] == steps[i];
    var u := Do(t, steps[i]);
    assert Legal(u, rest[1..]) && Final(u, rest[1..]) == s;
    RunKeepsRead(u, rest[1..], r);
    assert s.history[..|t.history|] == t.history;
    ReadsAreAtomic(s, first, r);
  }

  /** What the key became in group `g` with operation `o`, with nothing about it later. */
  ghost predicate LastWord(history: seq<Group>, g: nat, o: nat, k: UserKey) {
    g < |history| && history[g].status == OK && o < |history[g].ops| && history[g].ops[o].key == k &&
    (forall p :: o < p < |history[g].ops| ==> history[g].ops[p].key != k) &&
    forall h, p :: g < h < |history| && history[h].status == OK && 0 <= p < |history[h].ops| ==> history[h].ops[p].key != k
  }

  function Outcome(op: Op): (r: Option<Bytes>) {
    match op
    case Put(_, v) => Some(v)
    case Delete(_) => None
  }

  lemma {:induction false} ApplyOthers(m: map<UserKey, Bytes>, ops: seq<Op>, k: UserKey)
    requires forall p :: 0 <= p < |ops| ==> ops[p].key != k
    ensures Find(Apply(m, ops), k) == Find(m, k)
    decreases |ops|
  {
    if ops != [] { ApplyOthers(m, ops[..|ops| - 1], k); }
  }

  lemma {:induction false} ApplyLast(m: map<UserKey, Bytes>, ops: seq<Op>, o: nat, k: UserKey)
    requires o < |ops| && ops[o].key == k && forall p :: o < p < |ops| ==> ops[p].key != k
    ensures Find(Apply(m, ops), k) == Outcome(ops[o])
    decreases |ops|
  {
    if o < |ops| - 1 { ApplyLast(m, ops[..|ops| - 1], o, k); }
  }

  lemma {:induction false} MapHasLastWord(history: seq<Group>, g: nat, o: nat, k: UserKey)
    requires LastWord(history, g, o, k)
    ensures Find(MapOf(history), k) == Outcome(history[g].ops[o])
    decreases |history|
  {
    var n := |history| - 1;
    var front, last := history[..n], history[n];
    if g == n {
      ApplyLast(MapOf(front), last.ops, o, k);
    } else {
      MapHasLastWord(front, g, o, k);
      if last.status == OK { ApplyOthers(MapOf(front), last.ops, k); }
    }
  }

  lemma {:induction false} MapNeverTold(history: seq<Group>, k: UserKey)
    requires forall h, p :: 0 <= h < |history| && history[h].status == OK && 0 <= p < |history[h].ops| ==> history[h].ops[p].key != k
    ensures Find(MapOf(history), k) == None
    decreases |history|
  {
    if history != [] {
      var n := |history| - 1;
      MapNeverTold(history[..n], k);
      if history[n].status == OK { ApplyOthers(MapOf(history[..n]), history[n].ops, k); }
    }
  }

  /** A read finds the value last put under its key by a write that had succeeded when it
      began, and nothing if that was a deletion or if there was none. */
  lemma ReadFindsLastWrite(steps: seq<Step>, i: nat, j: nat, r: nat, k: UserKey, g: nat, o: nat)
    requires Legal(INITIAL, steps) && i < j <= |steps| && steps[i] == StartRead(r, k)
    ensures var s, history := StateAt(steps, j), StateAt(steps, i).history;
            r in s.readers && s.readers[r].snapshot <= MAX_SEQUENCE &&
            (LastWord(history, g, o, k) ==> Answer(AsSet(s.store), k, s.readers[r].snapshot) == Outcome(history[g].ops[o])) &&
            ((forall h, p :: 0 <= h < |history| && history[h].status == OK && 0 <= p < |history[h].ops| ==> history[h].ops[p].key != k)
              ==> Answer(AsSet(s.store), k, s.readers[r].snapshot) == None)
  {
    ReadIsOfItsMoment(steps, i, j, r, k);
    var history := StateAt(steps, i).history;
    if LastWord(history, g, o, k) { MapHasLastWord(history, g, o, k); }
    if forall h, p :: 0 <= h < |history| && history[h].status == OK && 0 <= p < |history[h].ops| ==> history[h].ops[p].key != k {
      MapNeverTold(history, k);
    }
  }

  /** Where operation `b` of member `m` stands among the operations of its group. */
  function Place(members: seq<Waiter>, m: nat, b: nat): (o: nat)
    requires m < |members|
  {
    |OpsOf(members[..m])| + b
  }

  lemma {:induction false} MemberOps(members: seq<Waiter>, m: nat, b: nat)
    requires m < |members| && members[m].batch.Some? && b < |members[m].batch.value|
    ensures Place(members, m, b) < |OpsOf(members)| && OpsOf(members)[Place(members, m, b)] == members[m].batch.value[b]
    decreases |members|
  {
    var front := members[..|members| - 1];
    if m < |front| {
      MemberOps(front, m, b);
      assert front[..m] == members[..m];
    } else {
      assert members[..m] == front;
    }
  }

  /** A put that was acknowledged before a read began, with no later word on its key by
      then, is what the read finds. */
  lemma AcknowledgedPutIsFound(steps: seq<Step>, i: nat, j: nat, r: nat, k: UserKey, g: nat, m: nat, b: nat, v: Bytes)
    requires Legal(INITIAL, steps) && i < j <= |steps| && steps[i] == StartRead(r, k)
    requires var t := StateAt(steps, i);
             g < |t.history| && m < |t.history[g].members| && t.history[g].members[m].batch.Some? &&
             b < |t.history[g].members[m].batch.value| && t.history[g].members[m].batch.value[b] == Put(k, v) &&
             LastWord(t.history, g, Place(t.history[g].members, m, b), k)
    ensures var s := StateAt(steps, j);
            r in s.readers && s.readers[r].snapshot <= MAX_SEQUENCE &&
            Answer(AsSet(s.store), k, s.readers[r].snapshot) == Some(v)
  {
    var t := StateAt(steps, i);
    LegalParts(INITIAL, steps, i);
    InitialInv();
    RunKeepsInv(INITIAL, steps[..i]);
    assert GoodGroup(t.history[g], t.log, t.synced);
    MemberOps(t.history[g].members, m, b);
    ReadFindsLastWrite(steps, i, j, r, k, g, Place(t.history[g].members, m, b));
  }
}
