/** The threads behind group commit (db/db_impl.cc:1185-1254): each caller of Write
    queues up and waits until it is done or at the front.  Nothing names a leader;
    that there is one at a time is what the wait loop brings about. */
module Writers {
  import opened Keys
  import opened Lookup
  import opened GroupCommit

  /** A call of Write: in its wait loop, past it at the front of the queue, with its
      status set by another thread, or back at its caller. */
  datatype Thread = Waiting | Leading(phase: Phase) | Done(status: Status) | Returned(status: Status)

  /** What the threads share: the state of GroupCommit without its phase. */
  datatype Shared = Shared(
    arrivals: seq<nat>, queue: seq<Waiter>, acks: seq<(nat, Status)>, lastSequence: nat, log: seq<LogRecord>, synced: nat,
    store: seq<Entry>, error: Status, history: seq<Group>, readers: map<nat, Read>)

  datatype World = World(shared: Shared, threads: map<nat, Thread>)

  const START := World(SharedOf(INITIAL), map[])

  function SharedOf(s: State): (r: Shared) {
    Shared(s.arrivals, s.queue, s.acks, s.lastSequence, s.log, s.synced, s.store, s.error, s.history, s.readers)
  }

  /** How things look to a thread in phase `p`. */
  function View(sh: Shared, p: Phase): (r: State) {
    State(sh.arrivals, sh.queue, sh.acks, p, sh.lastSequence, sh.log, sh.synced, sh.store, sh.error, sh.history, sh.readers)
  }

  datatype Act =
    | Arrive(waiter: Waiter)
    | Wake(id: nat)
    | Run(id: nat, step: Step)
    | Other(step: Step)

  predicate IsLeaderStep(step: Step) {
    step.MakeRoom? || step.AppendLog? || step.SyncLog? || step.InsertOne? || step.Finish?
  }

  /** A thread leaves its wait loop when it is done or at the front; past the loop it
      looks at neither again. */
  ghost predicate Able(w: World, act: Act) {
    match act
    case Arrive(waiter) => waiter.id !in w.threads
    case Wake(id) =>
      id in w.threads &&
      (w.threads[id].Done? || (w.threads[id].Waiting? && w.shared.queue != [] && w.shared.queue[0].id == id))
    case Run(id, step) =>
      id in w.threads && w.threads[id].Leading? && IsLeaderStep(step) && Enabled(View(w.shared, w.threads[id].phase), step)
    case Other(step) => (step.BackgroundError? || step.StartRead?) && Enabled(View(w.shared, Idle), step)
  }

  function LastStatus(acks: seq<(nat, Status)>): (r: Status) {
    if acks == [] then OK else acks[|acks| - 1].1
  }

  /** The ids popped off the front of the queue. */
  function Popped(before: seq<Waiter>, after: seq<Waiter>): (r: set<nat>) {
    set j | 0 <= j < |before| && j + |after| < |before| :: before[j].id
  }

  /** The leader goes on, or returns after waking those it popped. */
  function Woken(threads: map<nat, Thread>, id: nat, before: seq<Waiter>, t: State): (r: map<nat, Thread>) {
    map i | i in threads ::
      if i == id then (if t.phase.Idle? then Returned(LastStatus(t.acks)) else Leading(t.phase))
      else if i in Popped(before, t.queue) then Done(LastStatus(t.acks))
      else threads[i]
  }

  ghost function After(w: World, act: Act): (r: World)
    requires Able(w, act)
  {
    match act
    case Arrive(waiter) =>
      var sh := w.shared;
      World(sh.(arrivals := sh.arrivals + [waiter.id], queue := sh.queue + [waiter]), w.threads[waiter.id := Waiting])
    case Wake(id) =>
      World(w.shared, w.threads[id := if w.threads[id].Done? then Returned(w.threads[id].status) else Leading(Making)])
    case Run(id, step) =>
      var t := Do(View(w.shared, w.threads[id].phase), step);
      World(SharedOf(t), Woken(w.threads, id, w.shared.queue, t))
    case Other(step) =>
      World(SharedOf(Do(View(w.shared, Idle), step)), w.threads)
  }

  // ----- what the wait loop keeps -----

  ghost predicate Leads(w: World, id: nat) {
    id in w.threads && w.threads[id].Leading?
  }

  predicate Queues(t: Thread) {
    t.Waiting? || t.Leading?
  }

  predicate InQueue(queue: seq<Waiter>, id: nat) {
    exists j :: 0 <= j < |queue| && queue[j].id == id
  }

  predicate AtFront(queue: seq<Waiter>, id: nat) {
    queue != [] && queue[0].id == id
  }

  /** Queued threads wait or lead, leaders are at the front, the others were acknowledged. */
  ghost predicate Ordered(w: World) {
    (forall id :: id in w.threads <==> id in w.shared.arrivals) &&
    (forall id :: id in w.threads ==> (Queues(w.threads[id]) <==> InQueue(w.shared.queue, id))) &&
    (forall id :: Leads(w, id) ==> AtFront(w.shared.queue, id) && !w.threads[id].phase.Idle?) &&
    (forall id :: id in w.threads && !Queues(w.threads[id]) ==> (id, w.threads[id].status) in w.shared.acks)
  }

  lemma OneLeads(w: World, a: nat, b: nat)
    requires Ordered(w) && Leads(w, a) && Leads(w, b)
    ensures a == b
  {
    assert AtFront(w.shared.queue, a) && AtFront(w.shared.queue, b);
  }

  /** The phase of the leader, if there is one. */
  ghost function PhaseOf(w: World): (r: Phase) {
    if exists id :: Leads(w, id) then
      var id :| Leads(w, id);
      w.threads[id].phase
    else Idle
  }

  lemma PhaseIs(w: World, id: nat)
    requires Ordered(w) && Leads(w, id)
    ensures PhaseOf(w) == w.threads[id].phase
  {
    var a :| Leads(w, a) && PhaseOf(w) == w.threads[a].phase;
    OneLeads(w, a, id);
  }

  /** The world as the state machine of GroupCommit sees it. */
  ghost function Abs(w: World): (r: State) {
    View(w.shared, PhaseOf(w))
  }

  ghost predicate Good(w: World) {
    Ordered(w) && Inv(Abs(w))
  }

  // ----- acts keep it -----

  lemma QueueIsFresh(s: State, i: nat)
    requires InOrder(s) && i < |s.queue|
    ensures s.queue[i].id in s.arrivals
    ensures forall j :: 0 <= j < |s.queue| && s.queue[j].id == s.queue[i].id ==> j == i
    ensures forall st :: (s.queue[i].id, st) !in s.acks
  {
    var n := |s.acks|;
    assert s.arrivals[n + i] == IdsOf(s.queue)[i] == s.queue[i].id;
    forall j | 0 <= j < |s.queue| && s.queue[j].id == s.queue[i].id ensures j == i {
      assert s.arrivals[n + j] == IdsOf(s.queue)[j];
    }
    forall k | 0 <= k < n ensures s.acks[k].0 != s.queue[i].id {
      assert s.arrivals[k] == Acked(s.acks)[k] == s.acks[k].0;
    }
  }

  /** A leader's step either goes on with the queue as it is, or pops a group. */
  lemma LeaderStep(s: State, step: Step) returns (n: nat, st: Status)
    requires OneLeader(s) && IsLeaderStep(step) && Enabled(s, step)
    ensures var t := Do(s, step);
            t.arrivals == s.arrivals &&
            if t.phase.Idle? then
              1 <= n <= |s.queue| && t.queue == s.queue[n..] && t.acks == s.acks + Acks(s.queue[..n], st)
            else t.queue == s.queue && t.acks == s.acks
  {
    var t := Do(s, step);
    n, st := if step.Finish? then s.phase.n else 1, if step.Finish? then s.phase.status else OK;
    if step.MakeRoom? { st := step.status; }
  }

  lemma PoppedAre(queue: seq<Waiter>, n: nat, id: nat)
    requires n <= |queue|
    ensures id in Popped(queue, queue[n..]) <==> InQueue(queue[..n], id)
  {
    if InQueue(queue[..n], id) {
      var j :| 0 <= j < n && queue[..n][j].id == id;
      assert j + |queue[n..]| < |queue|;
    }
  }

  lemma SplitQueue(queue: seq<Waiter>, n: nat, id: nat)
    requires n <= |queue|
    ensures InQueue(queue, id) <==> InQueue(queue[..n], id) || InQueue(queue[n..], id)
  {
    if j :| 0 <= j < |queue| && queue[j].id == id {
      if j < n { assert queue[..n][j].id == id; } else { assert queue[n..][j - n].id == id; }
    }
    if j :| 0 <= j < n && queue[..n][j].id == id { assert queue[j].id == id; }
    if j :| 0 <= j < |queue| - n && queue[n..][j].id == id { assert queue[n + j].id == id; }
  }

  /** No id is both popped and left. */
  lemma PoppedOrLeft(s: State, n: nat, id: nat)
    requires InOrder(s) && n <= |s.queue|
    ensures !(InQueue(s.queue[..n], id) && InQueue(s.queue[n..], id))
  {
    if InQueue(s.queue[..n], id) && InQueue(s.queue[n..], id) {
      var i: nat :| i < n && s.queue[..n][i].id == id;
      var j: nat :| j < |s.queue| - n && s.queue[n..][j].id == id;
      QueueIsFresh(s, i);
    }
  }

  lemma AcksAre(members: seq<Waiter>, st: Status, id: nat)
    requires InQueue(members, id)
    ensures (id, st) in Acks(members, st)
  {
    var j :| 0 <= j < |members| && members[j].id == id;
    assert Acks(members, st)[j] == (id, st);
  }

  lemma LastOfAcks(acks: seq<(nat, Status)>, members: seq<Waiter>, st: Status)
    requires members != []
    ensures LastStatus(acks + Acks(members, st)) == st
  {}

  /** The leader goes on: only its phase changes. */
  lemma GoesOnKeepsOrder(w: World, id: nat, t: State)
    requires Ordered(w) && Leads(w, id) && !t.phase.Idle?
    requires t.queue == w.shared.queue && t.acks == w.shared.acks && t.arrivals == w.shared.arrivals
    ensures var u := World(SharedOf(t), Woken(w.threads, id, w.shared.queue, t)); Ordered(u) && Abs(u) == t
  {
    var u := World(SharedOf(t), Woken(w.threads, id, w.shared.queue, t));
    assert Popped(w.shared.queue, t.queue) == {};
    assert Leads(u, id);
    PhaseIs(u, id);
  }

  /** What becomes of one thread when the leader pops a group. */
  lemma PopsThread(w: World, id: nat, t: State, n: nat, st: Status, i: nat)
    requires Ordered(w) && InOrder(Abs(w)) && Leads(w, id) && t.phase.Idle? && i in w.threads
    requires 1 <= n <= |w.shared.queue| && t.queue == w.shared.queue[n..] && t.acks == w.shared.acks + Acks(w.shared.queue[..n], st)
    ensures var u := Woken(w.threads, id, w.shared.queue, t);
            (Queues(u[i]) <==> InQueue(t.queue, i)) && !u[i].Leading? && (!Queues(u[i]) ==> (i, u[i].status) in t.acks)
  {
    var queue := w.shared.queue;
    LastOfAcks(w.shared.acks, queue[..n], st);
    PoppedAre(queue, n, i);
    SplitQueue(queue, n, i);
    PoppedOrLeft(Abs(w), n, i);
    assert AtFront(queue, id);
    if i == id { assert queue[..n][0].id == id; }
    if InQueue(queue[..n], i) { AcksAre(queue[..n], st, i); }
    if w.threads[i].Leading? { OneLeads(w, i, id); }
  }

  lemma PopKeepsOrder(w: World, id: nat, t: State, n: nat, st: Status)
    requires Ordered(w) && InOrder(Abs(w)) && Leads(w, id) && t.phase.Idle? && t.arrivals == w.shared.arrivals
    requires 1 <= n <= |w.shared.queue| && t.queue == w.shared.queue[n..] && t.acks == w.shared.acks + Acks(w.shared.queue[..n], st)
    ensures var u := World(SharedOf(t), Woken(w.threads, id, w.shared.queue, t)); Ordered(u) && Abs(u) == t
  {
    var u := World(SharedOf(t), Woken(w.threads, id, w.shared.queue, t));
    forall i | i in u.threads
      ensures (Queues(u.threads[i]) <==> InQueue(t.queue, i)) && !u.threads[i].Leading?
      ensures !Queues(u.threads[i]) ==> (i, u.threads[i].status) in t.acks
    {
      PopsThread(w, id, t, n, st, i);
    }
  }

  lemma RunSimulates(w: World, id: nat, step: Step)
    requires Ordered(w) && InOrder(Abs(w)) && OneLeader(Abs(w)) && Able(w, Run(id, step))
    ensures Enabled(Abs(w), step)
    ensures Ordered(After(w, Run(id, step))) && Abs(After(w, Run(id, step))) == Do(Abs(w), step)
  {
    PhaseIs(w, id);
    var n, st := LeaderStep(Abs(w), step);
    var t := Do(Abs(w), step);
    if t.phase.Idle? {
      PopKeepsOrder(w, id, t, n, st);
    } else {
      GoesOnKeepsOrder(w, id, t);
    }
  }

  /** While the thread at the front waits, nobody leads. */
  lemma NobodyLeads(w: World, id: nat)
    requires Ordered(w) && id in w.threads && w.threads[id].Waiting? && AtFront(w.shared.queue, id)
    ensures forall a :: !Leads(w, a)
    ensures PhaseOf(w) == Idle
  {
    forall a ensures !Leads(w, a) {
      if Leads(w, a) { assert false; }
    }
  }

  lemma WakeToLead(w: World, id: nat)
    requires Ordered(w) && Able(w, Wake(id)) && w.threads[id].Waiting?
    ensures Enabled(Abs(w), Lead)
    ensures Ordered(After(w, Wake(id))) && Abs(After(w, Wake(id))) == Do(Abs(w), Lead)
  {
    NobodyLeads(w, id);
    var u := After(w, Wake(id));
    assert Ordered(u) && Leads(u, id);
    PhaseIs(u, id);
  }

  /** Threads that neither lead nor stop leading leave the phase alone. */
  lemma SamePhase(w: World, u: World)
    requires Ordered(w) && Ordered(u)
    requires forall id :: Leads(w, id) <==> Leads(u, id)
    requires forall id :: Leads(w, id) ==> u.threads[id] == w.threads[id]
    ensures PhaseOf(u) == PhaseOf(w)
  {
    if id :| Leads(w, id) {
      PhaseIs(w, id);
      PhaseIs(u, id);
    }
  }

  lemma WakeToReturn(w: World, id: nat)
    requires Ordered(w) && Able(w, Wake(id)) && w.threads[id].Done?
    ensures Ordered(After(w, Wake(id))) && Abs(After(w, Wake(id))) == Abs(w)
  {
    SamePhase(w, After(w, Wake(id)));
  }

  lemma ArrivalQueues(queue: seq<Waiter>, waiter: Waiter, id: nat)
    ensures InQueue(queue + [waiter], id) <==> InQueue(queue, id) || id == waiter.id
  {
    if j :| 0 <= j < |queue| && queue[j].id == id { assert (queue + [waiter])[j].id == id; }
    assert (queue + [waiter])[|queue|].id == waiter.id;
  }

  lemma ArrivalKeepsOrder(w: World, waiter: Waiter)
    requires Ordered(w) && waiter.id !in w.threads
    ensures var sh := w.shared;
            Ordered(World(sh.(arrivals := sh.arrivals + [waiter.id], queue := sh.queue + [waiter]), w.threads[waiter.id := Waiting]))
  {
    forall id ensures InQueue(w.shared.queue + [waiter], id) <==> InQueue(w.shared.queue, id) || id == waiter.id {
      ArrivalQueues(w.shared.queue, waiter, id);
    }
    forall id | AtFront(w.shared.queue, id) ensures AtFront(w.shared.queue + [waiter], id) {}
  }

  lemma ArriveSimulates(w: World, waiter: Waiter)
    requires Ordered(w) && Able(w, Arrive(waiter))
    ensures Enabled(Abs(w), Enqueue(waiter))
    ensures Ordered(After(w, Arrive(waiter))) && Abs(After(w, Arrive(waiter))) == Do(Abs(w), Enqueue(waiter))
  {
    var u := After(w, Arrive(waiter));
    ArrivalKeepsOrder(w, waiter);
    SamePhase(w, u);
  }

  lemma OtherSimulates(w: World, step: Step)
    requires Ordered(w) && Able(w, Other(step))
    ensures Enabled(Abs(w), step)
    ensures Ordered(After(w, Other(step))) && Abs(After(w, Other(step))) == Do(Abs(w), step)
  {
    SamePhase(w, After(w, Other(step)));
  }

  /** What an act of a thread is to GroupCommit: a step, or nothing. */
  ghost function StepOf(w: World, act: Act): (r: seq<Step>)
    requires Able(w, act)
  {
    match act
    case Arrive(waiter) => [Enqueue(waiter)]
    case Wake(id) => if w.threads[id].Done? then [] else [Lead]
    case Run(_, step) => [step]
    case Other(step) => [step]
  }

  lemma ActSimulates(w: World, act: Act)
    requires Ordered(w) && InOrder(Abs(w)) && OneLeader(Abs(w)) && Able(w, act)
    ensures Ordered(After(w, act))
    ensures StepOf(w, act) == [] ==> Abs(After(w, act)) == Abs(w)
    ensures StepOf(w, act) != [] ==> Enabled(Abs(w), StepOf(w, act)[0]) && Abs(After(w, act)) == Do(Abs(w), StepOf(w, act)[0])
  {
    match act
    case Arrive(waiter) =>
      ArriveSimulates(w, waiter);
    case Wake(id) =>
      if w.threads[id].Done? { WakeToReturn(w, id); } else { WakeToLead(w, id); }
    case Run(id, step) =>
      RunSimulates(w, id, step);
    case Other(step) =>
      OtherSimulates(w, step);
  }

  /** Each act keeps the order of threads and, being a step of GroupCommit or none at
      all, what its steps keep. */
  lemma ActKeepsGood(w: World, act: Act)
    requires Good(w) && Able(w, act)
    ensures Good(After(w, act))
  {
    ActSimulates(w, act);
    if StepOf(w, act) != [] { StepKeepsInv(Abs(w), StepOf(w, act)[0]); }
  }

  // ----- runs -----

  ghost predicate Runs(w: World, acts: seq<Act>)
    decreases |acts|
  {
    acts == [] || (Able(w, acts[0]) && Runs(After(w, acts[0]), acts[1..]))
  }

  ghost function End(w: World, acts: seq<Act>): (r: World)
    requires Runs(w, acts)
    decreases |acts|
  {
    if acts == [] then w else End(After(w, acts[0]), acts[1..])
  }

  lemma {:induction false} RunsSimulate(w: World, acts: seq<Act>) returns (steps: seq<Step>)
    requires Good(w) && Runs(w, acts)
    ensures Good(End(w, acts))
    ensures Legal(Abs(w), steps) && Final(Abs(w), steps) == Abs(End(w, acts))
    decreases |acts|
  {
    if acts == [] {
      steps := [];
    } else {
      ActSimulates(w, acts[0]);
      ActKeepsGood(w, acts[0]);
      var first := StepOf(w, acts[0]);
      var rest := RunsSimulate(After(w, acts[0]), acts[1..]);
      steps := first + rest;
      if first == [] {
        assert steps == rest;
      } else {
        assert steps[0] == first[0] && steps[1..] == rest;
      }
    }
  }

  lemma StartIsGood()
    ensures Good(START) && Abs(START) == INITIAL
  {
    assert PhaseOf(START) == Idle;
    InitialInv();
  }

  /** Every interleaving of the threads is a run of GroupCommit: what its runs keep,
      the threads keep. */
  lemma ThreadsRefine(acts: seq<Act>) returns (steps: seq<Step>)
    requires Runs(START, acts)
    ensures Good(End(START, acts)) && Reached(Abs(End(START, acts)), steps)
  {
    StartIsGood();
    steps := RunsSimulate(START, acts);
  }

  /** In every interleaving, at most one thread leads, and it is at the front of the queue. */
  lemma AtMostOneLeads(acts: seq<Act>, a: nat, b: nat)
    requires Runs(START, acts) && Leads(End(START, acts), a) && Leads(End(START, acts), b)
    ensures a == b && AtFront(End(START, acts).shared.queue, a)
  {
    var _ := ThreadsRefine(acts);
    OneLeads(End(START, acts), a, b);
  }

  /** A thread that is done has the one status it was acknowledged with, and threads
      are acknowledged in the order of arrival, group by group. */
  lemma ThreadsLearnTheirStatus(acts: seq<Act>, id: nat)
    requires Runs(START, acts) && id in End(START, acts).threads && !Queues(End(START, acts).threads[id])
    ensures var w := End(START, acts);
            w.shared.acks == AcksOf(w.shared.history) && (id, w.threads[id].status) in w.shared.acks &&
            forall st :: (id, st) in w.shared.acks ==> st == w.threads[id].status
  {
    var _ := ThreadsRefine(acts);
    var w := End(START, acts);
    forall st | (id, st) in w.shared.acks ensures st == w.threads[id].status {
      OneAck(Abs(w), id, st, w.threads[id].status);
    }
  }

  lemma OneAck(s: State, id: nat, a: Status, b: Status)
    requires InOrder(s) && (id, a) in s.acks && (id, b) in s.acks
    ensures a == b
  {
    var i :| 0 <= i < |s.acks| && s.acks[i] == (id, a);
    var j :| 0 <= j < |s.acks| && s.acks[j] == (id, b);
    assert s.arrivals[i] == Acked(s.acks)[i] == id && s.arrivals[j] == Acked(s.acks)[j] == id;
  }

  /** A leader always has a step to take. */
  lemma LeaderIsAble(s: State) returns (step: Step)
    requires OneLeader(s) && !s.phase.Idle?
    ensures IsLeaderStep(step) && Enabled(s, step)
  {
    match s.phase
    case Making => step := MakeRoom(if s.error != OK then s.error else Error("no room"), 0);
    case Writing(_, stage, _, inserted, _) =>
      match stage {
        case Logging => step := AppendLog(OK);
        case Syncing => step := SyncLog(OK);
        case Settled => step := Finish;
        case Inserting => step := if inserted < |GroupOps(s)| then InsertOne else Finish;
      }
  }

  lemma FrontIsThread(w: World)
    requires Ordered(w) && InOrder(Abs(w)) && w.shared.queue != []
    ensures w.shared.queue[0].id in w.threads && Queues(w.threads[w.shared.queue[0].id])
  {
    QueueIsFresh(Abs(w), 0);
    assert InQueue(w.shared.queue, w.shared.queue[0].id);
  }

  lemma FrontCanGoOn(w: World) returns (act: Act)
    requires Ordered(w) && InOrder(Abs(w)) && OneLeader(Abs(w)) && w.shared.queue != []
    ensures (act.Wake? || act.Run?) && Able(w, act)
  {
    var front := w.shared.queue[0].id;
    FrontIsThread(w);
    if w.threads[front].Waiting? {
      act := Wake(front);
    } else {
      PhaseIs(w, front);
      var step := LeaderIsAble(Abs(w));
      act := Run(front, step);
    }
  }

  /** In every interleaving, as long as a thread is not back at its caller, some thread
      can go on: the queue never stops. */
  lemma NobodyIsStuck(acts: seq<Act>, id: nat) returns (act: Act)
    requires Runs(START, acts) && id in End(START, acts).threads && !End(START, acts).threads[id].Returned?
    ensures (act.Wake? || act.Run?) && Able(End(START, acts), act)
  {
    var _ := ThreadsRefine(acts);
    var w := End(START, acts);
    if w.threads[id].Done? {
      act := Wake(id);
    } else {
      assert InQueue(w.shared.queue, id);
      act := FrontCanGoOn(w);
    }
  }
}
