/**
 The job manager at lock granularity: `ingest`, `dispatch`, `complete` and the mailbox of the actor.

 A state holds the manager's four fields, the callers that are inside `ingest`, the dispatch that
 holds the `running_workers` write lock, and the spawned worker tasks on their way through
 `complete`. An event is one separately locked section, so a run is any interleaving of them.
 */
module JobManager {
  import opened Outcomes
  import opened Bags

  const MAX_WORKERS: nat := 5

  type Id = nat

  datatype Child = Child(id: Id, hash: nat)

  /** A job together with the children queued behind it. A child carries the root's id as its parent. */
  datatype Job = Job(id: Id, hash: nat, parent: Option<Id>, rest: seq<Child>)

  /** How a worker's job ends. */
  datatype Ending =
    | Completed
    | Stopped               // its result is an error: its children are marked with it
    | Crashed               // its task cannot be joined: its result is never processed
    | CompletedInTimeout    // it completes after its timeout has fired and before it is joined

  datatype Stage =
    | Working
    | Hashing(next: Option<Job>)    // about to drop the job's hash
    | Removing(next: Option<Job>)   // about to leave the worker map
    | Advancing(next: Option<Job>)  // about to post the next job

  datatype Task = Task(worker: Id, job: Job, stage: Stage)

  datatype Ingest = Ingest(job: Job, inserted: bool)

  /** The `running_workers` write lock as `dispatch` holds it: across the spawn and the insertion. */
  datatype Lock = Free | Held(job: Job) | Spawned(worker: Id)

  datatype State = State(
    hashes: set<nat>, queue: seq<Job>, workers: set<Id>, mailbox: seq<Job>,
    ingests: seq<Ingest>, lock: Lock, tasks: seq<Task>,
    // history
    accepted: set<Id>, finished: multiset<Id>, stopped: multiset<Id>, lost: multiset<Id>,
    unspawned: multiset<Id>, failures: nat, leaked: multiset<nat>)

  datatype Event =
    | IngestCheck(job: Job)
    | IngestInsert(at: nat)
    | AcquireForIngest(at: nat)
    | AcquireForMailbox
    | Decide(spawns: bool)
    | InsertWorker
    | Finish(at: nat, ending: Ending)
    | RemoveHash(at: nat)
    | RemoveWorker(at: nat)
    | Advance(at: nat)

  const INITIAL: State :=
    State({}, [], {}, [], [], Free, [], {}, multiset{}, multiset{}, multiset{}, multiset{}, 0, multiset{})

  function WorkerId(job: Job): Id {
    match job.parent case Some(id) => id case None => job.id
  }

  /** The first child, carrying its siblings. */
  function NextJob(job: Job): Option<Job> {
    if job.rest == [] then None
    else Some(Job(job.rest[0].id, job.rest[0].hash, Some(WorkerId(job)), job.rest[1..]))
  }

  function ChildId(child: Child): multiset<Id> {
    multiset{child.id}
  }

  ghost function RestIds(rest: seq<Child>): multiset<Id> {
    Collect(ChildId, rest)
  }

  ghost function JobIds(job: Job): multiset<Id> {
    multiset{job.id} + RestIds(job.rest)
  }

  function Without<T>(s: seq<T>, i: nat): seq<T>
    requires i < |s|
  {
    s[..i] + s[i + 1..]
  }

  /** Only a directly ingested job owns an entry of the hash set; children never enter it. */
  function JobHash(job: Job): multiset<nat> {
    if job.parent.None? then multiset{job.hash} else multiset{}
  }

  /** Fresh identifiers: a new job and its children have never been seen. */
  ghost predicate FreshJob(s: State, job: Job) {
    && job.parent == None
    && (forall id :: id in JobIds(job) ==> id !in s.accepted && JobIds(job)[id] == 1)
  }

  ghost predicate Enabled(s: State, e: Event) {
    match e
    case IngestCheck(job) => FreshJob(s, job)
    case IngestInsert(i) => i < |s.ingests| && !s.ingests[i].inserted
    case AcquireForIngest(i) => i < |s.ingests| && s.ingests[i].inserted && s.lock == Free
    case AcquireForMailbox => s.mailbox != [] && s.lock == Free
    case Decide(_) => s.lock.Held?
    case InsertWorker => s.lock.Spawned?
    case Finish(i, _) => i < |s.tasks| && s.tasks[i].stage.Working?
    case RemoveHash(i) => i < |s.tasks| && s.tasks[i].stage.Hashing?
    case RemoveWorker(i) => i < |s.tasks| && s.tasks[i].stage.Removing? && s.lock == Free
    case Advance(i) => i < |s.tasks| && s.tasks[i].stage.Advancing?
  }

  ghost function IdSet(job: Job): set<Id> {
    set id | id in JobIds(job)
  }

  ghost function Next(s: State, e: Event): State
    requires Enabled(s, e)
  {
    match e
    case IngestCheck(job) =>
      if job.hash in s.hashes then s
      else s.(ingests := s.ingests + [Ingest(job, false)], accepted := s.accepted + IdSet(job))
    case IngestInsert(i) =>
      s.(hashes := s.hashes + {s.ingests[i].job.hash}, ingests := s.ingests[i := s.ingests[i].(inserted := true)])
    case AcquireForIngest(i) => s.(lock := Held(s.ingests[i].job), ingests := Without(s.ingests, i))
    case AcquireForMailbox => s.(lock := Held(s.mailbox[0]), mailbox := s.mailbox[1..])
    case Decide(spawns) =>
      var job := s.lock.job;
      if |s.workers| >= MAX_WORKERS then s.(lock := Free, queue := s.queue + [job])
      else if spawns then
        s.(lock := Spawned(WorkerId(job)), tasks := s.tasks + [Task(WorkerId(job), job, Working)])
      else
        s.(lock := Free, unspawned := s.unspawned + JobIds(job), failures := s.failures + 1,
           leaked := s.leaked + JobHash(job))
    case InsertWorker => s.(lock := Free, workers := s.workers + {s.lock.worker})
    case Finish(i, ending) =>
      var job := s.tasks[i].job;
      var next := if ending.Completed? then NextJob(job) else None;
      var s' := s.(tasks := s.tasks[i := s.tasks[i].(stage := Hashing(next))]);
      (match ending
       case Completed => s'.(finished := s.finished + multiset{job.id})
       case Stopped => s'.(stopped := s.stopped + JobIds(job))
       case Crashed => s'.(stopped := s.stopped + multiset{job.id}, lost := s.lost + RestIds(job.rest))
       case CompletedInTimeout => s'.(finished := s.finished + multiset{job.id}, lost := s.lost + RestIds(job.rest)))
    case RemoveHash(i) =>
      s.(hashes := s.hashes - {s.tasks[i].job.hash},
         tasks := s.tasks[i := s.tasks[i].(stage := Removing(s.tasks[i].stage.next))])
    case RemoveWorker(i) =>
      s.(workers := s.workers - {s.tasks[i].worker},
         tasks := s.tasks[i := s.tasks[i].(stage := Advancing(s.tasks[i].stage.next))])
    case Advance(i) =>
      match s.tasks[i].stage.next
      case Some(job) => s.(mailbox := s.mailbox + [job], tasks := Without(s.tasks, i))
      case None =>
        if s.queue == [] then s.(tasks := Without(s.tasks, i))
        else s.(mailbox := s.mailbox + [s.queue[0]], queue := s.queue[1..], tasks := Without(s.tasks, i))
  }

  /* ----- where the jobs are ----- */

  ghost function IngestIds(ingest: Ingest): multiset<Id> {
    JobIds(ingest.job)
  }

  ghost function NextIds(next: Option<Job>): multiset<Id> {
    match next case Some(job) => JobIds(job) case None => multiset{}
  }

  ghost function TaskIds(task: Task): multiset<Id> {
    if task.stage.Working? then JobIds(task.job) else NextIds(task.stage.next)
  }

  ghost function LockIds(lock: Lock): multiset<Id> {
    if lock.Held? then JobIds(lock.job) else multiset{}
  }

  /** How often a job is waiting, running or about to be posted. */
  ghost function Unfinished(s: State, id: Id): nat {
    Collect(IngestIds, s.ingests)[id] + Collect(JobIds, s.mailbox)[id] + Collect(JobIds, s.queue)[id]
    + LockIds(s.lock)[id] + Collect(TaskIds, s.tasks)[id]
  }

  /** How often a job is anywhere. */
  ghost function Places(s: State, id: Id): nat {
    Unfinished(s, id) + s.finished[id] + s.stopped[id] + s.lost[id] + s.unspawned[id]
  }

  /* ----- chains and the worker map ----- */

  function JobChain(job: Job): multiset<Id> {
    multiset{WorkerId(job)}
  }

  function IngestChain(ingest: Ingest): multiset<Id> {
    JobChain(ingest.job)
  }

  function TaskChain(task: Task): multiset<Id> {
    if task.stage.Advancing? && task.stage.next.None? then multiset{} else multiset{task.worker}
  }

  function LockChain(lock: Lock): multiset<Id> {
    if lock.Held? then JobChain(lock.job) else multiset{}
  }

  /** How many places carry the chain whose root is `c`. */
  ghost function Carriers(s: State, c: Id): nat {
    Collect(IngestChain, s.ingests)[c] + Collect(JobChain, s.mailbox)[c] + Collect(JobChain, s.queue)[c]
    + LockChain(s.lock)[c] + Collect(TaskChain, s.tasks)[c]
  }

  function InPool(task: Task): multiset<Id> {
    if task.stage.Advancing? then multiset{} else multiset{task.worker}
  }

  function Pending(lock: Lock): multiset<Id> {
    if lock.Spawned? then multiset{lock.worker} else multiset{}
  }

  /** A task knows its chain, and what it hands on belongs to that chain. */
  ghost predicate TaskValid(task: Task) {
    && task.worker == WorkerId(task.job)
    && (!task.stage.Working? && task.stage.next.Some? ==> WorkerId(task.stage.next.value) == task.worker)
  }

  /* ----- stalling ----- */

  function Mark(task: Task): multiset<Id> {
    if task.stage.Advancing? then multiset{0} else multiset{}
  }

  /** Workers in the map, the dispatch in progress, completions about to post, and the mailbox. */
  ghost function Occupancy(s: State): nat {
    |s.workers| + (if s.lock == Free then 0 else 1) + |s.mailbox| + |Collect(Mark, s.tasks)|
  }

  function Has(ids: set<Id>, c: Id): nat {
    if c in ids then 1 else 0
  }

  ghost predicate ChainInv(s: State) {
    && (forall c :: Carriers(s, c) <= Has(s.accepted, c))
    && TasksValid(s)
  }

  /** The map holds exactly the spawned workers that have not left it, but for the one being inserted. */
  ghost predicate PoolInv(s: State) {
    forall c :: PoolAt(s, c)
  }

  ghost predicate Inv(s: State) {
    && (forall id :: Places(s, id) == Has(s.accepted, id))
    && ChainInv(s)
    && PoolInv(s)
    && SlotInv(s)
  }

  /** A job's identifiers are its own and those its children carry on. */
  lemma NextIdsOf(job: Job, id: Id)
    ensures JobIds(job)[id] == multiset{job.id}[id] + NextIds(NextJob(job))[id]
    ensures JobIds(job)[id] == multiset{job.id}[id] + RestIds(job.rest)[id]
  {
    if job.rest != [] {
      assert RestIds(job.rest) == multiset{job.rest[0].id} + RestIds(job.rest[1..]);
    }
  }

  ghost function Admitted(s: State, e: Event, id: Id): nat {
    if e.IngestCheck? && e.job.hash !in s.hashes then JobIds(e.job)[id] else 0
  }

  ghost predicate InIngest(e: Event) {
    e.IngestCheck? || e.IngestInsert? || e.AcquireForIngest?
  }

  ghost predicate InDispatch(e: Event) {
    e.AcquireForMailbox? || e.Decide? || e.InsertWorker?
  }

  ghost predicate InComplete(e: Event) {
    e.RemoveHash? || e.RemoveWorker? || e.Advance?
  }

  lemma IngestConserves(s: State, e: Event, id: Id)
    requires Enabled(s, e) && InIngest(e)
    ensures Places(Next(s, e), id) == Places(s, id) + Admitted(s, e, id)
  {
    hide Collect, RestIds;
    match e {
      case IngestCheck(job) => CountPush(IngestIds, s.ingests, Ingest(job, false), id);
      case IngestInsert(i) => CountUpdate(IngestIds, s.ingests, i, s.ingests[i].(inserted := true), id);
      case AcquireForIngest(i) => CountRemove(IngestIds, s.ingests, i, id);
    }
  }

  lemma DispatchConserves(s: State, e: Event, id: Id)
    requires Enabled(s, e) && InDispatch(e)
    ensures Places(Next(s, e), id) == Places(s, id)
  {
    hide Collect, JobIds, RestIds;
    if e.Decide? {
      CountPush(JobIds, s.queue, s.lock.job, id);
      CountPush(TaskIds, s.tasks, Task(WorkerId(s.lock.job), s.lock.job, Working), id);
    } else if e.AcquireForMailbox? {
      CountPop(JobIds, s.mailbox, id);
    }
  }

  lemma FinishConserves(s: State, e: Event, id: Id)
    requires Enabled(s, e) && e.Finish?
    ensures Places(Next(s, e), id) == Places(s, id)
  {
    hide Collect, JobIds, RestIds;
    var i, t := e.at, s.tasks[e.at];
    var t' := t.(stage := Hashing(if e.ending.Completed? then NextJob(t.job) else None));
    NextIdsOf(t.job, id);
    assert TaskIds(t') == if e.ending.Completed? then NextIds(NextJob(t.job)) else multiset{};
    assert TaskIds(t) == JobIds(t.job);
    hide TaskIds, NextJob, NextIds;
    CountUpdate(TaskIds, s.tasks, i, t', id);
  }

  lemma CompleteConserves(s: State, e: Event, id: Id)
    requires Enabled(s, e) && InComplete(e)
    ensures Places(Next(s, e), id) == Places(s, id)
  {
    hide Collect, JobIds, RestIds;
    var i, t := e.at, s.tasks[e.at];
    match e {
      case RemoveHash(_) => CountUpdate(TaskIds, s.tasks, i, t.(stage := Removing(t.stage.next)), id);
      case RemoveWorker(_) => CountUpdate(TaskIds, s.tasks, i, t.(stage := Advancing(t.stage.next)), id);
      case Advance(_) =>
        CountRemove(TaskIds, s.tasks, i, id);
        if t.stage.next.Some? {
          CountPush(JobIds, s.mailbox, t.stage.next.value, id);
        } else if s.queue != [] {
          CountPop(JobIds, s.queue, id);
          CountPush(JobIds, s.mailbox, s.queue[0], id);
        }
    }
  }

  /** Every event moves jobs between places; only an accepted ingest adds any. */
  lemma JobsAreConserved(s: State, e: Event, id: Id)
    requires Enabled(s, e)
    ensures Places(Next(s, e), id) == Places(s, id) + Admitted(s, e, id)
  {
    if InIngest(e) {
      IngestConserves(s, e, id);
    } else if InDispatch(e) {
      DispatchConserves(s, e, id);
    } else if e.Finish? {
      FinishConserves(s, e, id);
    } else {
      CompleteConserves(s, e, id);
    }
  }

  /* ----- chains ----- */

  ghost function NewChain(s: State, e: Event, c: Id): nat {
    if e.IngestCheck? && e.job.hash !in s.hashes then JobChain(e.job)[c] else 0
  }

  /** What `e` turns the task at its index into. */
  function Moved(task: Task, e: Event): Task
    requires e.Finish? || ((e.RemoveHash? || e.RemoveWorker?) && !task.stage.Working?)
  {
    match e
    case Finish(_, ending) => task.(stage := Hashing(if ending.Completed? then NextJob(task.job) else None))
    case RemoveHash(_) => task.(stage := Removing(task.stage.next))
    case _ => task.(stage := Advancing(task.stage.next))
  }

  ghost predicate Moves(e: Event) {
    e.Finish? || e.RemoveHash? || e.RemoveWorker?
  }

  lemma MoveFrame(s: State, e: Event)
    requires Enabled(s, e) && Moves(e)
    ensures var s' := Next(s, e);
            && s'.tasks == s.tasks[e.at := Moved(s.tasks[e.at], e)]
            && s'.ingests == s.ingests && s'.mailbox == s.mailbox && s'.queue == s.queue && s'.lock == s.lock
            && s'.accepted == s.accepted && s'.unspawned == s.unspawned
            && s'.failures == s.failures && s'.leaked == s.leaked
    ensures Next(s, e).workers ==
            if e.RemoveWorker? then s.workers - {s.tasks[e.at].worker} else s.workers
  {
  }

  lemma AdvanceFrame(s: State, e: Event)
    requires Enabled(s, e) && e.Advance?
    ensures var s' := Next(s, e);
            s' == s.(tasks := Without(s.tasks, e.at), mailbox := s'.mailbox, queue := s'.queue)
  {
  }

  lemma IngestKeepsChains(s: State, e: Event, c: Id)
    requires Enabled(s, e) && InIngest(e)
    ensures Carriers(Next(s, e), c) <= Carriers(s, c) + NewChain(s, e, c)
  {
    hide Collect, JobIds, RestIds, FreshJob;
    match e {
      case IngestCheck(job) => CountPush(IngestChain, s.ingests, Ingest(job, false), c);
      case IngestInsert(i) => CountUpdate(IngestChain, s.ingests, i, s.ingests[i].(inserted := true), c);
      case AcquireForIngest(i) => CountRemove(IngestChain, s.ingests, i, c);
    }
  }

  lemma DispatchKeepsChains(s: State, e: Event, c: Id)
    requires Enabled(s, e) && InDispatch(e)
    ensures Carriers(Next(s, e), c) <= Carriers(s, c)
  {
    hide Collect, JobIds, RestIds;
    if e.Decide? {
      CountPush(JobChain, s.queue, s.lock.job, c);
      CountPush(TaskChain, s.tasks, Task(WorkerId(s.lock.job), s.lock.job, Working), c);
    } else if e.AcquireForMailbox? {
      CountPop(JobChain, s.mailbox, c);
    }
  }

  lemma MoveKeepsChains(s: State, e: Event, c: Id)
    requires Enabled(s, e) && Moves(e) && TaskValid(s.tasks[e.at])
    ensures Carriers(Next(s, e), c) <= Carriers(s, c)
  {
    MoveFrame(s, e);
    hide Next, Collect, JobIds, RestIds;
    CountUpdate(TaskChain, s.tasks, e.at, Moved(s.tasks[e.at], e), c);
  }

  lemma AdvanceKeepsChains(s: State, e: Event, c: Id)
    requires Enabled(s, e) && e.Advance? && TaskValid(s.tasks[e.at])
    ensures Carriers(Next(s, e), c) <= Carriers(s, c)
  {
    hide Collect, JobIds, RestIds;
    var t := s.tasks[e.at];
    CountRemove(TaskChain, s.tasks, e.at, c);
    if t.stage.next.Some? {
      CountPush(JobChain, s.mailbox, t.stage.next.value, c);
    } else if s.queue != [] {
      CountPop(JobChain, s.queue, c);
      CountPush(JobChain, s.mailbox, s.queue[0], c);
    }
  }

  ghost predicate TasksValid(s: State) {
    forall i :: 0 <= i < |s.tasks| ==> TaskValid(s.tasks[i])
  }

  lemma TasksStayValid(s: State, e: Event)
    requires Enabled(s, e) && TasksValid(s)
    ensures TasksValid(Next(s, e))
  {
    hide JobIds, RestIds, FreshJob;
    if Moves(e) {
      MoveFrame(s, e);
      hide Next;
    } else if e.Advance? {
      AdvanceFrame(s, e);
      hide Next;
    } else if e.Decide? {
      DecideFrame(s, e);
      hide Next;
    }
  }

  lemma AcceptedGrows(s: State, e: Event)
    requires Enabled(s, e)
    ensures s.accepted <= Next(s, e).accepted
    ensures e.IngestCheck? && e.job.hash !in s.hashes ==>
              e.job.id !in s.accepted && e.job.id in Next(s, e).accepted && WorkerId(e.job) == e.job.id
  {
    if e.IngestCheck? {
      assert JobIds(e.job)[e.job.id] > 0;
    }
  }

  lemma ChainsKeptAt(s: State, e: Event, c: Id)
    requires Enabled(s, e) && TasksValid(s) && Carriers(s, c) <= Has(s.accepted, c)
    ensures Carriers(Next(s, e), c) <= Has(Next(s, e).accepted, c)
  {
    AcceptedGrows(s, e);
    hide Carriers, Next, FreshJob;
    if InIngest(e) {
      IngestKeepsChains(s, e, c);
    } else if InDispatch(e) {
      DispatchKeepsChains(s, e, c);
    } else if e.Advance? {
      AdvanceKeepsChains(s, e, c);
    } else {
      MoveKeepsChains(s, e, c);
    }
  }

  lemma ChainsKept(s: State, e: Event)
    requires Enabled(s, e) && ChainInv(s)
    ensures ChainInv(Next(s, e))
  {
    hide Carriers, JobIds, FreshJob, Next;
    TasksStayValid(s, e);
    forall c ensures Carriers(Next(s, e), c) <= Has(Next(s, e).accepted, c) {
      ChainsKeptAt(s, e, c);
    }
  }

  /* ----- the pool ----- */

  lemma PoolWithinChains(s: State, c: Id)
    requires ChainInv(s)
    ensures Collect(InPool, s.tasks)[c] <= 1
  {
    CountLess(InPool, TaskChain, s.tasks, c);
    assert Carriers(s, c) <= Has(s.accepted, c);
  }

  /** `complete` always finds its worker in the map: `dispatch` held the lock until it was inserted. */
  lemma RemovalFollowsInsertion(s: State, e: Event)
    requires Inv(s) && Enabled(s, e) && e.RemoveWorker?
    ensures s.tasks[e.at].worker in s.workers
  {
    var w := s.tasks[e.at].worker;
    assert InPool(s.tasks[e.at])[w] == 1;
    CountRemove(InPool, s.tasks, e.at, w);
    assert PoolAt(s, w);
  }

  /** And an insertion never overwrites another worker. */
  lemma InsertionIsFresh(s: State, e: Event)
    requires Inv(s) && Enabled(s, e) && e.InsertWorker?
    ensures s.lock.worker !in s.workers
  {
    var w := s.lock.worker;
    PoolWithinChains(s, w);
    assert PoolAt(s, w);
  }

  /** The one insertion is fresh and the one removal effective. */
  ghost predicate MapStep(s: State, e: Event)
    requires Enabled(s, e)
  {
    && (e.InsertWorker? ==> s.lock.worker !in s.workers)
    && (e.RemoveWorker? ==> s.tasks[e.at].worker in s.workers)
  }

  lemma MapSteps(s: State, e: Event)
    requires Enabled(s, e) && Inv(s)
    ensures MapStep(s, e)
  {
    if e.InsertWorker? {
      InsertionIsFresh(s, e);
    } else if e.RemoveWorker? {
      RemovalFollowsInsertion(s, e);
    }
  }

  ghost predicate PoolAt(s: State, c: Id) {
    Has(s.workers, c) + Pending(s.lock)[c] == Collect(InPool, s.tasks)[c]
  }

  lemma PoolMoves(s: State, i: nat, t: Task, c: Id)
    requires i < |s.tasks|
    ensures Collect(InPool, s.tasks[i := t])[c] + InPool(s.tasks[i])[c] == Collect(InPool, s.tasks)[c] + InPool(t)[c]
  {
    hide *;
    CountUpdate(InPool, s.tasks, i, t, c);
  }

  ghost function Left(s: State, e: Event, c: Id): nat
    requires Enabled(s, e) && Moves(e)
  {
    if e.RemoveWorker? && s.tasks[e.at].worker == c then 1 else 0
  }

  lemma MovedLeavesPool(s: State, e: Event, c: Id)
    requires Enabled(s, e) && Moves(e)
    ensures InPool(Moved(s.tasks[e.at], e))[c] + Left(s, e, c) == InPool(s.tasks[e.at])[c]
  {
  }

  lemma WorkerLeaves(s: State, e: Event, c: Id)
    requires Enabled(s, e) && Moves(e) && MapStep(s, e)
    ensures Has(Next(s, e).workers, c) + Left(s, e, c) == Has(s.workers, c)
    ensures Next(s, e).tasks == s.tasks[e.at := Moved(s.tasks[e.at], e)] && Next(s, e).lock == s.lock && e.at < |s.tasks|
  {
    MoveFrame(s, e);
    hide Next, Moved;
  }

  lemma MoveKeepsPool(s: State, e: Event, c: Id)
    requires Enabled(s, e) && Moves(e) && MapStep(s, e) && PoolAt(s, c)
    ensures PoolAt(Next(s, e), c)
  {
    MovedLeavesPool(s, e, c);
    WorkerLeaves(s, e, c);
    PoolMoves(s, e.at, Moved(s.tasks[e.at], e), c);
    hide Collect, Next, Moved, InPool, Enabled, MapStep, Has, Moves, Left;
  }

  lemma PoolDrops(s: State, i: nat, c: Id)
    requires i < |s.tasks| && s.tasks[i].stage.Advancing?
    ensures Collect(InPool, Without(s.tasks, i))[c] == Collect(InPool, s.tasks)[c]
  {
    assert InPool(s.tasks[i]) == multiset{};
    hide Collect, InPool;
    CountRemove(InPool, s.tasks, i, c);
  }

  lemma AdvanceKeepsPool(s: State, e: Event, c: Id)
    requires Enabled(s, e) && e.Advance? && PoolAt(s, c)
    ensures PoolAt(Next(s, e), c)
  {
    AdvanceFrame(s, e);
    PoolDrops(s, e.at, c);
    hide Collect, Next, Enabled, InPool;
  }

  lemma OthersKeepPool(s: State, e: Event, c: Id)
    requires Enabled(s, e) && !Moves(e) && !e.Advance? && MapStep(s, e) && PoolAt(s, c)
    ensures PoolAt(Next(s, e), c)
  {
    if e.Decide? {
      DecideKeepsPool(s, e, c);
    } else {
      hide Collect, JobIds, RestIds, FreshJob;
    }
  }

  lemma DecideKeepsPool(s: State, e: Event, c: Id)
    requires Enabled(s, e) && e.Decide? && PoolAt(s, c)
    ensures PoolAt(Next(s, e), c)
  {
    DecideFrame(s, e);
    hide Next, Collect;
    CountPush(InPool, s.tasks, Task(WorkerId(s.lock.job), s.lock.job, Working), c);
  }

  lemma PoolKept(s: State, e: Event)
    requires Enabled(s, e) && MapStep(s, e) && PoolInv(s)
    ensures PoolInv(Next(s, e))
  {
    hide Next, JobIds, FreshJob, PoolAt;
    var s' := Next(s, e);
    forall c ensures PoolAt(s', c) {
      if Moves(e) {
        MoveKeepsPool(s, e, c);
      } else if e.Advance? {
        AdvanceKeepsPool(s, e, c);
      } else {
        OthersKeepPool(s, e, c);
      }
    }
  }

  /* ----- no stall ----- */

  /** At most five workers, and a waiting queue only behind five slots taken, on their way, or lost to a failed spawn. */
  ghost predicate SlotInv(s: State) {
    && |s.workers| <= MAX_WORKERS
    && (s.lock.Spawned? ==> |s.workers| < MAX_WORKERS)
    && (s.queue != [] ==> Occupancy(s) + s.failures >= MAX_WORKERS)
  }

  lemma MoveKeepsSlots(s: State, e: Event)
    requires Enabled(s, e) && Moves(e) && MapStep(s, e) && SlotInv(s)
    ensures SlotInv(Next(s, e))
  {
    MoveFrame(s, e);
    hide Collect, Next;
    CountUpdate(Mark, s.tasks, e.at, Moved(s.tasks[e.at], e), 0);
  }

  lemma AdvanceKeepsSlots(s: State, e: Event)
    requires Enabled(s, e) && e.Advance? && SlotInv(s)
    ensures SlotInv(Next(s, e))
  {
    hide Collect;
    CountRemove(Mark, s.tasks, e.at, 0);
  }

  lemma DecideKeepsSlots(s: State, e: Event)
    requires Enabled(s, e) && e.Decide? && SlotInv(s)
    ensures SlotInv(Next(s, e))
  {
    var task := Task(WorkerId(s.lock.job), s.lock.job, Working);
    var full := |s.workers| >= MAX_WORKERS;
    var s' := Next(s, e);
    assert if full then s' == s.(lock := Free, queue := s.queue + [s.lock.job])
           else if e.spawns then s' == s.(lock := Spawned(task.worker), tasks := s.tasks + [task])
           else s' == s.(lock := Free, unspawned := s'.unspawned, failures := s.failures + 1, leaked := s'.leaked);
    assert s.lock.Held?;
    hide Next, Collect, Enabled;
    CountPush(Mark, s.tasks, task, 0);
  }

  lemma OthersKeepSlots(s: State, e: Event)
    requires Enabled(s, e) && !Moves(e) && !e.Advance? && !e.Decide? && MapStep(s, e) && SlotInv(s)
    ensures SlotInv(Next(s, e))
  {
    hide Collect, JobIds, RestIds, FreshJob, IdSet;
  }

  lemma SlotsKept(s: State, e: Event)
    requires Enabled(s, e) && MapStep(s, e) && SlotInv(s)
    ensures SlotInv(Next(s, e))
  {
    hide SlotInv, Next, Enabled;
    if Moves(e) {
      MoveKeepsSlots(s, e);
    } else if e.Advance? {
      AdvanceKeepsSlots(s, e);
    } else if e.Decide? {
      DecideKeepsSlots(s, e);
    } else {
      OthersKeepSlots(s, e);
    }
  }

  lemma PlacesKept(s: State, e: Event)
    requires Enabled(s, e) && forall id :: Places(s, id) == Has(s.accepted, id)
    ensures var s' := Next(s, e); forall id :: Places(s', id) == Has(s'.accepted, id)
  {
    hide Places;
    var s' := Next(s, e);
    forall id ensures Places(s', id) == Has(s'.accepted, id) {
      JobsAreConserved(s, e, id);
    }
  }

  lemma InvKept(s: State, e: Event)
    requires Enabled(s, e) && Inv(s)
    ensures Inv(Next(s, e))
  {
    hide Next, Enabled, Places, ChainInv, PoolInv, SlotInv;
    MapSteps(s, e);
    PlacesKept(s, e);
    ChainsKept(s, e);
    PoolKept(s, e);
    SlotsKept(s, e);
  }

  /* ----- draining ----- */

  ghost function UnfinishedSize(s: State): nat {
    |Collect(IngestIds, s.ingests)| + |Collect(JobIds, s.mailbox)| + |Collect(JobIds, s.queue)|
    + |LockIds(s.lock)| + |Collect(TaskIds, s.tasks)|
  }

  /** Sections of `complete` still ahead of a task. */
  function StepsLeft(task: Task): multiset<nat> {
    match task.stage
    case Working => multiset{}
    case Hashing(_) => multiset{0, 0, 0}
    case Removing(_) => multiset{0, 0}
    case Advancing(_) => multiset{0}
  }

  function IngestLeft(ingest: Ingest): multiset<nat> {
    if ingest.inserted then multiset{0, 0, 0} else multiset{0, 0, 0, 0}
  }

  function LockLeft(lock: Lock): nat {
    match lock case Free => 0 case Held(_) => 2 case Spawned(_) => 1
  }

  /** The lexicographic measure (unfinished jobs, completions in flight, mailbox, locks), flattened into one number. */
  ghost function Rank(s: State): nat {
    13 * UnfinishedSize(s) + 4 * |Collect(StepsLeft, s.tasks)| + 3 * |s.mailbox|
    + |Collect(IngestLeft, s.ingests)| + LockLeft(s.lock)
  }

  lemma JobSize(job: Job)
    ensures |JobIds(job)| == 1 + |NextIds(NextJob(job))|
  {
    if job.rest != [] {
      assert RestIds(job.rest) == multiset{job.rest[0].id} + RestIds(job.rest[1..]);
    }
  }

  lemma IngestDrops(s: State, e: Event)
    requires Enabled(s, e) && InIngest(e) && !e.IngestCheck?
    ensures Rank(Next(s, e)) < Rank(s)
  {
    hide Collect, JobIds, FreshJob;
    if e.IngestInsert? {
      var x := s.ingests[e.at].(inserted := true);
      CountUpdate(IngestIds, s.ingests, e.at, x, 0);
      CountUpdate(IngestLeft, s.ingests, e.at, x, 0);
    } else {
      CountRemove(IngestIds, s.ingests, e.at, 0);
      CountRemove(IngestLeft, s.ingests, e.at, 0);
    }
  }

  lemma DecideFrame(s: State, e: Event)
    requires Enabled(s, e) && e.Decide?
    ensures var job, s' := s.lock.job, Next(s, e);
            || s' == s.(lock := Free, queue := s.queue + [job])
            || s' == s.(lock := Spawned(WorkerId(job)), tasks := s.tasks + [Task(WorkerId(job), job, Working)])
            || s' == s.(lock := Free, unspawned := s'.unspawned, failures := s'.failures, leaked := s.leaked + JobHash(job))
  {
  }

  lemma SpawningDrops(s: State, job: Job)
    requires s.lock == Held(job)
    ensures var task := Task(WorkerId(job), job, Working);
            Rank(s.(lock := Spawned(WorkerId(job)), tasks := s.tasks + [task])) < Rank(s)
  {
    var task := Task(WorkerId(job), job, Working);
    assert |StepsLeft(task)| == 0 && TaskIds(task) == JobIds(job);
    hide Collect, JobIds, TaskIds, StepsLeft;
    CountPush(TaskIds, s.tasks, task, 0);
    CountPush(StepsLeft, s.tasks, task, 0);
  }

  lemma QueueingDrops(s: State, job: Job)
    requires s.lock == Held(job)
    ensures Rank(s.(lock := Free, queue := s.queue + [job])) < Rank(s)
  {
    hide Collect, JobIds;
    CountPush(JobIds, s.queue, job, 0);
  }

  lemma DecideDrops(s: State, e: Event)
    requires Enabled(s, e) && e.Decide?
    ensures Rank(Next(s, e)) < Rank(s)
  {
    DecideFrame(s, e);
    SpawningDrops(s, s.lock.job);
    QueueingDrops(s, s.lock.job);
    hide Collect, JobIds, Next, Enabled;
  }

  lemma DispatchDrops(s: State, e: Event)
    requires Enabled(s, e) && InDispatch(e)
    ensures Rank(Next(s, e)) < Rank(s)
  {
    hide Collect, JobIds;
    if e.Decide? {
      DecideDrops(s, e);
    } else if e.AcquireForMailbox? {
      CountPop(JobIds, s.mailbox, 0);
    }
  }

  lemma MovedSize(task: Task, e: Event)
    requires e.Finish? ==> task.stage.Working?
    requires e.RemoveHash? ==> task.stage.Hashing?
    requires e.RemoveWorker? ==> task.stage.Removing?
    requires Moves(e)
    ensures |TaskIds(Moved(task, e))| + (if e.Finish? then 1 else 0) <= |TaskIds(task)|
    ensures |StepsLeft(Moved(task, e))| == if e.Finish? then 3 else |StepsLeft(task)| - 1
    ensures e.Finish? ==> |StepsLeft(task)| == 0
  {
    JobSize(task.job);
    hide Collect, JobIds, RestIds;
  }

  lemma MoveDrops(s: State, e: Event)
    requires Enabled(s, e) && Moves(e)
    ensures Rank(Next(s, e)) < Rank(s)
  {
    MoveFrame(s, e);
    MovedSize(s.tasks[e.at], e);
    hide Next, Collect, JobIds, TaskIds, StepsLeft;
    CountUpdate(TaskIds, s.tasks, e.at, Moved(s.tasks[e.at], e), 0);
    CountUpdate(StepsLeft, s.tasks, e.at, Moved(s.tasks[e.at], e), 0);
  }

  lemma AdvanceDrops(s: State, e: Event)
    requires Enabled(s, e) && e.Advance?
    ensures Rank(Next(s, e)) < Rank(s)
  {
    hide Collect, JobIds;
    var t := s.tasks[e.at];
    CountRemove(TaskIds, s.tasks, e.at, 0);
    CountRemove(StepsLeft, s.tasks, e.at, 0);
    if t.stage.next.Some? {
      CountPush(JobIds, s.mailbox, t.stage.next.value, 0);
    } else if s.queue != [] {
      CountPop(JobIds, s.queue, 0);
      CountPush(JobIds, s.mailbox, s.queue[0], 0);
    }
  }

  lemma RankDrops(s: State, e: Event)
    requires Enabled(s, e) && !e.IngestCheck?
    ensures Rank(Next(s, e)) < Rank(s)
  {
    hide Next, Rank;
    if InIngest(e) {
      IngestDrops(s, e);
    } else if InDispatch(e) {
      DispatchDrops(s, e);
    } else if Moves(e) {
      MoveDrops(s, e);
    } else {
      AdvanceDrops(s, e);
    }
  }

  /* ----- whole runs ----- */

  ghost predicate CanRun(s: State, events: seq<Event>)
    decreases |events|
  {
    events == [] || (Enabled(s, events[0]) && CanRun(Next(s, events[0]), events[1..]))
  }

  ghost function Exec(s: State, events: seq<Event>): State
    requires CanRun(s, events)
    decreases |events|
  {
    if events == [] then s else Exec(Next(s, events[0]), events[1..])
  }

  lemma {:induction false} InvHolds(s: State, events: seq<Event>)
    requires Inv(s) && CanRun(s, events)
    ensures Inv(Exec(s, events))
    decreases |events|
  {
    hide Inv, Next, Enabled;
    if events != [] {
      InvKept(s, events[0]);
      InvHolds(Next(s, events[0]), events[1..]);
    }
  }

  lemma InitialInv()
    ensures Inv(INITIAL)
  {
  }

  /** With no new ingest, a run has at most `Rank` steps, whatever the interleaving. */
  lemma {:induction false} DrainIsBounded(s: State, events: seq<Event>)
    requires CanRun(s, events) && forall i :: 0 <= i < |events| ==> !events[i].IngestCheck?
    ensures |events| + Rank(Exec(s, events)) <= Rank(s)
    decreases |events|
  {
    hide Rank, Next, Enabled;
    if events != [] {
      RankDrops(s, events[0]);
      assert forall i :: 0 <= i < |events[1..]| ==> events[1..][i] == events[i + 1];
      DrainIsBounded(Next(s, events[0]), events[1..]);
    }
  }

  /** No section can run: nothing is left to do but to ingest. */
  ghost predicate Quiet(s: State) {
    forall e :: Enabled(s, e) ==> e.IngestCheck?
  }

  ghost predicate Idle(s: State) {
    s.lock == Free && s.ingests == [] && s.tasks == [] && s.mailbox == []
  }

  /** Whoever holds the lock, calls or completes can always take its next section; so can the actor. */
  lemma BusyCanStep(s: State)
    ensures Quiet(s) ==> Idle(s)
  {
    if !Idle(s) {
      var e :=
        if s.lock.Held? then Decide(true)
        else if s.lock.Spawned? then InsertWorker
        else if s.ingests != [] then (if s.ingests[0].inserted then AcquireForIngest(0) else IngestInsert(0))
        else if s.mailbox != [] then AcquireForMailbox
        else (match s.tasks[0].stage
              case Working => Finish(0, Completed)
              case Hashing(_) => RemoveHash(0)
              case Removing(_) => RemoveWorker(0)
              case Advancing(_) => Advance(0));
      assert Enabled(s, e);
    }
  }

  /**
   A run that cannot go on has emptied the mailbox and the pool. It has emptied the queue too, unless
   at least five spawns failed; and then every accepted job and child has one recorded end.
   */
  lemma QuietIsDrained(s: State)
    requires Inv(s) && Quiet(s)
    ensures s.mailbox == [] && s.workers == {} && s.tasks == [] && s.ingests == []
    ensures s.queue != [] ==> s.failures >= 5
    ensures s.queue == [] ==>
              forall id :: s.finished[id] + s.stopped[id] + s.lost[id] + s.unspawned[id] == Has(s.accepted, id)
  {
    BusyCanStep(s);
    forall c ensures c !in s.workers {
      assert PoolAt(s, c);
    }
    assert s.workers == {};
    if s.queue == [] {
      forall id ensures s.finished[id] + s.stopped[id] + s.lost[id] + s.unspawned[id] == Has(s.accepted, id) {
        assert Places(s, id) == Has(s.accepted, id);
      }
    }
  }

  /* ----- what a run loses ----- */

  /** A worker ends without processing its job's result, or without offering the next job, and has children behind it. */
  ghost predicate DropsChildren(s: State, e: Event)
    requires Enabled(s, e)
  {
    e.Finish? && (e.ending.Crashed? || e.ending.CompletedInTimeout?) && s.tasks[e.at].job.rest != []
  }

  ghost predicate FailsSpawn(s: State, e: Event)
    requires Enabled(s, e)
  {
    e.Decide? && !e.spawns && |s.workers| < MAX_WORKERS
  }

  ghost predicate DropsNone(s: State, events: seq<Event>)
    requires CanRun(s, events)
    decreases |events|
  {
    events == [] || (!DropsChildren(s, events[0]) && DropsNone(Next(s, events[0]), events[1..]))
  }

  ghost predicate SpawnsSucceed(s: State, events: seq<Event>)
    requires CanRun(s, events)
    decreases |events|
  {
    events == [] || (!FailsSpawn(s, events[0]) && SpawnsSucceed(Next(s, events[0]), events[1..]))
  }

  lemma StepLoses(s: State, e: Event)
    requires Enabled(s, e)
    ensures var r := Next(s, e);
            && |r.lost| >= |s.lost| && (|r.lost| == |s.lost| <==> !DropsChildren(s, e))
            && |r.unspawned| >= |s.unspawned| && (|r.unspawned| == |s.unspawned| <==> !FailsSpawn(s, e))
            && r.failures >= s.failures && (r.failures == s.failures <==> !FailsSpawn(s, e))
  {
    if e.Finish? {
      RestSize(s.tasks[e.at].job.rest);
    } else if e.Decide? {
      JobSize(s.lock.job);
    }
    hide RestIds, FreshJob, Collect;
  }

  lemma RestSize(rest: seq<Child>)
    ensures |RestIds(rest)| == 0 <==> rest == []
  {
    if rest != [] {
      assert RestIds(rest) == multiset{rest[0].id} + RestIds(rest[1..]);
    }
  }

  /** A run loses a child exactly if one of its events drops one, and a job exactly if one of its spawns fails. */
  lemma {:induction false} RunLosesExactly(s: State, events: seq<Event>)
    requires CanRun(s, events)
    ensures var r := Exec(s, events);
            && |r.lost| >= |s.lost| && (|r.lost| == |s.lost| <==> DropsNone(s, events))
            && |r.unspawned| >= |s.unspawned| && (|r.unspawned| == |s.unspawned| <==> SpawnsSucceed(s, events))
            && r.failures >= s.failures && (r.failures == s.failures <==> SpawnsSucceed(s, events))
    decreases |events|
  {
    if events != [] {
      StepLoses(s, events[0]);
      RunLosesExactly(Next(s, events[0]), events[1..]);
      hide Next, Enabled, DropsChildren, FailsSpawn;
    }
  }

  lemma {:induction false} LostStaysLost(s: State, events: seq<Event>, id: Id)
    requires CanRun(s, events)
    ensures Exec(s, events).lost[id] >= s.lost[id]
    decreases |events|
  {
    if events != [] {
      LostStays(s, events[0], id);
      LostStaysLost(Next(s, events[0]), events[1..], id);
      hide Next, Enabled;
    }
  }

  lemma LostStays(s: State, e: Event, id: Id)
    requires Enabled(s, e)
    ensures Next(s, e).lost[id] >= s.lost[id]
  {
    hide FreshJob, RestIds;
  }

  ghost function Ended(s: State, id: Id): nat {
    s.finished[id] + s.stopped[id]
  }

  /** A child that is lost never waits, runs or ends, however the run goes on. */
  lemma LostNeverRuns(events: seq<Event>, more: seq<Event>, id: Id)
    requires CanRun(INITIAL, events) && CanRun(Exec(INITIAL, events), more)
    requires id in Exec(INITIAL, events).lost
    ensures var r := Exec(Exec(INITIAL, events), more);
            id in r.lost && Unfinished(r, id) == 0 && Ended(r, id) == 0 && id in r.accepted
  {
    InitialInv();
    InvHolds(INITIAL, events);
    var s := Exec(INITIAL, events);
    InvHolds(s, more);
    LostStaysLost(s, more, id);
    var r := Exec(s, more);
    hide Unfinished;
    assert Places(r, id) == Has(r.accepted, id);
  }

  /** When nothing is left to do, every accepted job and child has ended exactly if nothing was lost and no spawn failed. */
  lemma AllEndedExactly(s: State)
    requires Inv(s) && Quiet(s) && s.queue == []
    ensures (forall id :: Ended(s, id) == Has(s.accepted, id)) <==> s.lost == multiset{} && s.unspawned == multiset{}
  {
    QuietIsDrained(s);
    if forall id :: Ended(s, id) == Has(s.accepted, id) {
      forall id ensures s.lost[id] == 0 && s.unspawned[id] == 0 {
        assert Ended(s, id) == Has(s.accepted, id);
      }
    }
  }

  /**
   From the empty manager, a maximal run ends with nothing waiting and every accepted job and child
   ended, once, exactly if no spawn failed and no child was dropped by a crash or a late completion.
   */
  lemma MaximalRunDrains(events: seq<Event>)
    requires CanRun(INITIAL, events) && Quiet(Exec(INITIAL, events))
    ensures var r := Exec(INITIAL, events);
            && r.mailbox == [] && r.workers == {} && r.tasks == []
            && (r.queue == [] && (forall id :: Ended(r, id) == Has(r.accepted, id))
                <==> SpawnsSucceed(INITIAL, events) && DropsNone(INITIAL, events))
  {
    InitialInv();
    InvHolds(INITIAL, events);
    RunLosesExactly(INITIAL, events);
    var r := Exec(INITIAL, events);
    QuietIsDrained(r);
    hide Inv, Quiet, Exec, CanRun;
    if r.queue == [] {
      AllEndedExactly(r);
    }
    assert |r.lost| == 0 <==> r.lost == multiset{};
    assert |r.unspawned| == 0 <==> r.unspawned == multiset{};
  }

  /** At every point of every run: five workers at most, one live worker a chain, one place a job. */
  lemma RunsAreSafe(events: seq<Event>)
    requires CanRun(INITIAL, events)
    ensures var r := Exec(INITIAL, events);
            && |r.workers| <= 5
            && (forall i, j :: 0 <= i < j < |r.tasks| && !r.tasks[i].stage.Advancing? && !r.tasks[j].stage.Advancing?
                               ==> r.tasks[i].worker != r.tasks[j].worker)
            && (forall id :: Places(r, id) == Has(r.accepted, id))
            && (r.queue != [] ==> Occupancy(r) + r.failures >= 5)
  {
    InitialInv();
    InvHolds(INITIAL, events);
    var r := Exec(INITIAL, events);
    forall i, j | 0 <= i < j < |r.tasks| && !r.tasks[i].stage.Advancing? && !r.tasks[j].stage.Advancing?
      ensures r.tasks[i].worker != r.tasks[j].worker
    {
      var w := r.tasks[i].worker;
      PoolWithinChains(r, w);
      CountRemove(InPool, r.tasks, j, w);
      var others := Without(r.tasks, j);
      assert others[i] == r.tasks[i];
      CountRemove(InPool, others, i, w);
    }
  }
}
