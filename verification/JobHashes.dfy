/** Duplicate rejection: what the manager's hash set promises, and when it does not keep the promise. */
module JobHashes {
  import opened Outcomes
  import opened Bags
  import opened JobManager

  function InsertedHash(ingest: Ingest): multiset<nat> {
    if ingest.inserted then multiset{ingest.job.hash} else multiset{}
  }

  function CheckedHash(ingest: Ingest): multiset<nat> {
    if ingest.inserted then multiset{} else multiset{ingest.job.hash}
  }

  function LockHash(lock: Lock): multiset<nat> {
    if lock.Held? then JobHash(lock.job) else multiset{}
  }

  /** A job owns its hash until `complete` drops it. */
  function TaskHash(task: Task): multiset<nat> {
    if task.stage.Working? || task.stage.Hashing? then JobHash(task.job) else multiset{}
  }

  /** Live directly ingested jobs with hash `h` that have entered it into the set. */
  ghost function Live(s: State, h: nat): nat {
    Collect(InsertedHash, s.ingests)[h] + Collect(JobHash, s.mailbox)[h] + Collect(JobHash, s.queue)[h]
    + LockHash(s.lock)[h] + Collect(TaskHash, s.tasks)[h]
  }

  /** Callers that have passed the check with hash `h` and have not entered it yet. */
  ghost function Waiting(s: State, h: nat): nat {
    Collect(CheckedHash, s.ingests)[h]
  }

  /** Only root jobs are ingested, and what a task hands on is a child. */
  ghost predicate Shape(s: State) {
    && (forall i :: 0 <= i < |s.ingests| ==> s.ingests[i].job.parent == None)
    && (forall i :: 0 <= i < |s.tasks| && !s.tasks[i].stage.Working? && s.tasks[i].stage.next.Some?
                    ==> s.tasks[i].stage.next.value.parent.Some?)
  }

  lemma ShapeKept(s: State, e: Event)
    requires Enabled(s, e) && Shape(s)
    ensures Shape(Next(s, e))
  {
    hide Collect, JobIds;
  }

  ghost function Entered(s: State, e: Event, h: nat): nat
    requires Enabled(s, e)
  {
    if e.IngestInsert? && s.ingests[e.at].job.hash == h then 1 else 0
  }

  ghost function Dropped(s: State, e: Event, h: nat): nat
    requires Enabled(s, e)
  {
    if e.RemoveHash? then JobHash(s.tasks[e.at].job)[h] else 0
  }

  ghost function Checked(s: State, e: Event, h: nat): nat {
    if e.IngestCheck? && e.job.hash !in s.hashes && e.job.hash == h then 1 else 0
  }

  /** How one event changes the number of owners of `h`, and of callers about to own it. */
  ghost predicate Balanced(s: State, e: Event, h: nat)
    requires Enabled(s, e)
  {
    var s' := Next(s, e);
    && Live(s', h) + s'.leaked[h] + Dropped(s, e, h) == Live(s, h) + s.leaked[h] + Entered(s, e, h)
    && Waiting(s', h) + Entered(s, e, h) == Waiting(s, h) + Checked(s, e, h)
    && s'.leaked[h] >= s.leaked[h]
  }

  lemma CheckBalances(s: State, e: Event, h: nat)
    requires Enabled(s, e) && e.IngestCheck?
    ensures Balanced(s, e, h)
  {
    hide Collect, JobIds, FreshJob, IdSet;
    CountPush(InsertedHash, s.ingests, Ingest(e.job, false), h);
    CountPush(CheckedHash, s.ingests, Ingest(e.job, false), h);
  }

  lemma InsertBalances(s: State, e: Event, h: nat)
    requires Enabled(s, e) && e.IngestInsert?
    ensures Balanced(s, e, h)
  {
    hide Collect, JobIds, FreshJob;
    var x := s.ingests[e.at].(inserted := true);
    CountUpdate(InsertedHash, s.ingests, e.at, x, h);
    CountUpdate(CheckedHash, s.ingests, e.at, x, h);
  }

  lemma AcquireFrame(s: State, e: Event)
    requires Enabled(s, e) && e.AcquireForIngest?
    ensures Next(s, e) == s.(lock := Held(s.ingests[e.at].job), ingests := Without(s.ingests, e.at))
    ensures s.ingests[e.at].inserted && s.lock == Free
  {
  }

  lemma AcquireKeepsLive(s: State, ingest: Ingest, i: nat, h: nat)
    requires i < |s.ingests| && s.ingests[i] == ingest && ingest.inserted && ingest.job.parent == None && s.lock == Free
    ensures var s' := s.(lock := Held(ingest.job), ingests := Without(s.ingests, i));
            Live(s', h) == Live(s, h) && Waiting(s', h) == Waiting(s, h)
  {
    hide Collect;
    CountRemove(InsertedHash, s.ingests, i, h);
    CountRemove(CheckedHash, s.ingests, i, h);
  }

  lemma AcquireBalances(s: State, e: Event, h: nat)
    requires Enabled(s, e) && e.AcquireForIngest? && Shape(s)
    ensures Balanced(s, e, h)
  {
    AcquireFrame(s, e);
    AcquireKeepsLive(s, s.ingests[e.at], e.at, h);
    hide Next, Enabled, Live, Waiting, Shape;
  }

  lemma IngestBalances(s: State, e: Event, h: nat)
    requires Enabled(s, e) && InIngest(e) && Shape(s)
    ensures Balanced(s, e, h)
  {
    hide Balanced, Next, Shape, Enabled;
    if e.IngestCheck? {
      CheckBalances(s, e, h);
    } else if e.IngestInsert? {
      InsertBalances(s, e, h);
    } else {
      AcquireBalances(s, e, h);
    }
  }

  lemma DispatchBalances(s: State, e: Event, h: nat)
    requires Enabled(s, e) && InDispatch(e)
    ensures Balanced(s, e, h)
  {
    hide Collect, JobIds, JobHash;
    if e.Decide? {
      DecideBalances(s, e, h);
    } else if e.AcquireForMailbox? {
      CountPop(JobHash, s.mailbox, h);
    }
  }

  lemma DecideKeepsLive(s: State, e: Event, h: nat)
    requires Enabled(s, e) && e.Decide?
    ensures Live(Next(s, e), h) + Next(s, e).leaked[h] == Live(s, h) + s.leaked[h]
  {
    DecideFrame(s, e);
    var job := s.lock.job;
    var task := Task(WorkerId(job), job, Working);
    assert TaskHash(task) == JobHash(job);
    hide Collect, Next, JobHash, TaskHash;
    CountPush(JobHash, s.queue, job, h);
    CountPush(TaskHash, s.tasks, task, h);
  }

  lemma DecideBalances(s: State, e: Event, h: nat)
    requires Enabled(s, e) && e.Decide?
    ensures Balanced(s, e, h)
  {
    DecideKeepsLive(s, e, h);
    DecideFrame(s, e);
    hide Next, Live, Collect;
  }

  lemma MovedHash(task: Task, e: Event, h: nat)
    requires Moves(e) && (e.Finish? ==> task.stage.Working?) && (e.RemoveHash? ==> task.stage.Hashing?)
    requires e.RemoveWorker? ==> task.stage.Removing?
    ensures TaskHash(Moved(task, e))[h] + (if e.RemoveHash? then JobHash(task.job)[h] else 0) == TaskHash(task)[h]
  {
  }

  lemma MoveKeepsLive(s: State, e: Event, h: nat)
    requires Enabled(s, e) && Moves(e)
    ensures Live(Next(s, e), h) + Dropped(s, e, h) == Live(s, h)
  {
    MoveFrame(s, e);
    MovedHash(s.tasks[e.at], e, h);
    hide Collect, Next, TaskHash, Moved, JobHash;
    CountUpdate(TaskHash, s.tasks, e.at, Moved(s.tasks[e.at], e), h);
  }

  lemma MoveKeepsWaiting(s: State, e: Event, h: nat)
    requires Enabled(s, e) && Moves(e)
    ensures Waiting(Next(s, e), h) == Waiting(s, h) && Next(s, e).leaked == s.leaked
    ensures Entered(s, e, h) == 0 && Checked(s, e, h) == 0
  {
    MoveFrame(s, e);
    hide Next, Enabled, Collect;
  }

  lemma MoveBalances(s: State, e: Event, h: nat)
    requires Enabled(s, e) && Moves(e)
    ensures Balanced(s, e, h)
  {
    MoveKeepsLive(s, e, h);
    MoveKeepsWaiting(s, e, h);
    hide Next, Enabled, Live, Waiting, Entered, Checked, Dropped, Moves;
  }

  lemma AdvanceBalances(s: State, e: Event, h: nat)
    requires Enabled(s, e) && e.Advance? && Shape(s)
    ensures Balanced(s, e, h)
  {
    hide Collect, JobIds, FreshJob;
    var next := s.tasks[e.at].stage.next;
    CountRemove(TaskHash, s.tasks, e.at, h);
    if next.Some? {
      assert JobHash(next.value) == multiset{};
      CountPush(JobHash, s.mailbox, next.value, h);
    } else if s.queue != [] {
      CountPop(JobHash, s.queue, h);
      CountPush(JobHash, s.mailbox, s.queue[0], h);
    }
  }

  lemma EventsBalance(s: State, e: Event, h: nat)
    requires Enabled(s, e) && Shape(s)
    ensures Balanced(s, e, h)
  {
    hide Balanced, Next;
    if InIngest(e) {
      IngestBalances(s, e, h);
    } else if InDispatch(e) {
      DispatchBalances(s, e, h);
    } else if Moves(e) {
      MoveBalances(s, e, h);
    } else {
      AdvanceBalances(s, e, h);
    }
  }

  /* ----- a rejection is never spurious, but for leaks ----- */

  /** Every hash in the set belongs to a live directly ingested job, or to one whose spawn failed. */
  ghost predicate Owned(s: State) {
    Shape(s) && forall h :: h in s.hashes ==> Live(s, h) + s.leaked[h] >= 1
  }

  ghost function HashesAfter(s: State, e: Event): set<nat>
    requires Enabled(s, e)
  {
    if e.IngestInsert? then s.hashes + {s.ingests[e.at].job.hash}
    else if e.RemoveHash? then s.hashes - {s.tasks[e.at].job.hash}
    else s.hashes
  }

  lemma HashesChange(s: State, e: Event)
    requires Enabled(s, e)
    ensures Next(s, e).hashes == HashesAfter(s, e)
  {
  }

  lemma OwnedKept(s: State, e: Event)
    requires Enabled(s, e) && Owned(s)
    ensures Owned(Next(s, e))
  {
    var s' := Next(s, e);
    ShapeKept(s, e);
    HashesChange(s, e);
    hide Next, Live, Waiting, Shape;
    forall h | h in s'.hashes ensures Live(s', h) + s'.leaked[h] >= 1 {
      EventsBalance(s, e, h);
    }
  }

  lemma {:induction false} RejectionIsNotSpurious(s: State, events: seq<Event>)
    requires CanRun(s, events) && Owned(s)
    ensures Owned(Exec(s, events))
    decreases |events|
  {
    hide Owned, Next, Enabled;
    if events != [] {
      OwnedKept(s, events[0]);
      RejectionIsNotSpurious(Next(s, events[0]), events[1..]);
    }
  }

  /** The spawn of a root job with hash `h` fails: nobody will ever drop that hash. */
  ghost predicate Leaks(s: State, e: Event, h: nat)
    requires Enabled(s, e)
  {
    FailsSpawn(s, e) && h in JobHash(s.lock.job)
  }

  ghost predicate LeakFree(s: State, events: seq<Event>, h: nat)
    requires CanRun(s, events)
    decreases |events|
  {
    events == [] || (!Leaks(s, events[0], h) && LeakFree(Next(s, events[0]), events[1..], h))
  }

  lemma LeakStep(s: State, e: Event, h: nat)
    requires Enabled(s, e)
    ensures Next(s, e).leaked[h] == s.leaked[h] + (if Leaks(s, e, h) then 1 else 0)
  {
    hide FreshJob, RestIds;
  }

  lemma {:induction false} LeakFreeRun(s: State, events: seq<Event>, h: nat)
    requires CanRun(s, events) && LeakFree(s, events, h)
    ensures Exec(s, events).leaked[h] == s.leaked[h]
    decreases |events|
  {
    if events != [] {
      LeakStep(s, events[0], h);
      LeakFreeRun(Next(s, events[0]), events[1..], h);
      hide Next, Enabled, Leaks;
    }
  }

  /** Whenever a run rejects a job, a live directly ingested job has its hash, unless the spawn of such a job has failed. */
  lemma RejectedOnlyForLiveTwin(events: seq<Event>, job: Job)
    requires CanRun(INITIAL, events) && job.hash in Exec(INITIAL, events).hashes
    requires LeakFree(INITIAL, events, job.hash)
    ensures Live(Exec(INITIAL, events), job.hash) >= 1
  {
    RejectionIsNotSpurious(INITIAL, events);
    LeakFreeRun(INITIAL, events, job.hash);
  }

  /** Every hash in the set has a live owner. */
  ghost predicate NoneDead(s: State) {
    forall h :: h in s.hashes ==> Live(s, h) >= 1
  }

  lemma FailedSpawnLeavesDeadHash(s: State, e: Event)
    requires Enabled(s, e) && Unique(s) && FailsSpawn(s, e) && s.lock.job.parent.None?
    ensures s.lock.job.hash in Next(s, e).hashes && Live(Next(s, e), s.lock.job.hash) == 0
  {
    var h := s.lock.job.hash;
    HashesChange(s, e);
    EventsBalance(s, e, h);
    LeakStep(s, e, h);
    LockedHash(s);
    hide Next, Live, Waiting, Shape;
  }

  lemma OthersLeaveNoneDead(s: State, e: Event)
    requires Enabled(s, e) && Unique(s) && NoneDead(s) && !(FailsSpawn(s, e) && s.lock.job.parent.None?)
    ensures NoneDead(Next(s, e))
  {
    var s' := Next(s, e);
    HashesChange(s, e);
    forall h | h in s'.hashes ensures Live(s', h) >= 1 {
      EventsBalance(s, e, h);
      LeakStep(s, e, h);
      hide Next, Live, Waiting, Shape;
    }
  }

  /** Where hashes are unique and owned, an event leaves one without an owner exactly if it fails to spawn a root job. */
  lemma DeadHashExactlyAfterFailedSpawn(s: State, e: Event)
    requires Enabled(s, e) && Unique(s) && NoneDead(s)
    ensures !NoneDead(Next(s, e)) <==> FailsSpawn(s, e) && s.lock.job.parent.None?
  {
    if FailsSpawn(s, e) && s.lock.job.parent.None? {
      FailedSpawnLeavesDeadHash(s, e);
    } else {
      OthersLeaveNoneDead(s, e);
    }
    hide Next, Live, Unique;
  }

  /** The job that holds the lock is live. */
  lemma LockedHash(s: State)
    requires s.lock.Held? && s.lock.job.parent.None?
    ensures Live(s, s.lock.job.hash) >= 1
  {
    hide Collect;
  }

  /* ----- uniqueness, and the two ways to break it ----- */

  ghost predicate UniqueAt(s: State, h: nat) {
    Live(s, h) + Waiting(s, h) <= 1 && (Live(s, h) >= 1 ==> h in s.hashes)
  }

  /** No two live directly ingested jobs share a hash, and each has its hash in the set. */
  ghost predicate Unique(s: State) {
    && Shape(s)
    && forall h :: Live(s, h) + Waiting(s, h) <= 1 && (Live(s, h) >= 1 ==> h in s.hashes)
  }

  /** An accepted check is not raced by a caller between check and insertion, and no child drops a live root's hash. */
  ghost predicate Guarded(s: State, e: Event)
    requires Enabled(s, e)
  {
    && (e.IngestCheck? ==> e.job.hash in s.hashes || Waiting(s, e.job.hash) == 0)
    && (e.RemoveHash? && s.tasks[e.at].job.parent.Some? ==> Live(s, s.tasks[e.at].job.hash) == 0)
  }

  /** A guarded removal of `h` leaves no live owner of it behind. */
  lemma GuardedRemoval(s: State, e: Event, h: nat)
    requires Enabled(s, e) && UniqueAt(s, h) && Guarded(s, e) && Balanced(s, e, h)
    requires h in s.hashes && h !in Next(s, e).hashes
    ensures Live(Next(s, e), h) == 0
  {
    HashesChange(s, e);
    hide Next, Live, Waiting;
    var job := s.tasks[e.at].job;
    assert e.RemoveHash? && job.hash == h;
    assert job.parent == None ==> JobHash(job)[h] == 1;
  }

  lemma GuardedKeepsUniqueAt(s: State, e: Event, h: nat)
    requires Enabled(s, e) && Shape(s) && UniqueAt(s, h) && Guarded(s, e)
    ensures UniqueAt(Next(s, e), h)
  {
    EventsBalance(s, e, h);
    HashesChange(s, e);
    if h in s.hashes && h !in Next(s, e).hashes {
      GuardedRemoval(s, e, h);
    }
    hide Next, Enabled, Live, Waiting, Shape, Dropped;
  }

  lemma GuardedKeepsUnique(s: State, e: Event)
    requires Enabled(s, e) && Unique(s) && Guarded(s, e)
    ensures Unique(Next(s, e))
  {
    ShapeKept(s, e);
    hide Next, Enabled, Live, Waiting, Shape, Guarded;
    forall h ensures Live(Next(s, e), h) + Waiting(Next(s, e), h) <= 1
                     && (Live(Next(s, e), h) >= 1 ==> h in Next(s, e).hashes) {
      GuardedKeepsUniqueAt(s, e, h);
    }
  }

  lemma RacedCheckBreaksUnique(s: State, e: Event)
    requires Enabled(s, e) && Unique(s) && e.IngestCheck? && !Guarded(s, e)
    ensures !Unique(Next(s, e))
  {
    var h := e.job.hash;
    LeakStep(s, e, h);
    EventsBalance(s, e, h);
    hide Next, Live, Waiting, Shape;
    assert Live(Next(s, e), h) + Waiting(Next(s, e), h) >= 2;
  }

  lemma ErasureBreaksUnique(s: State, e: Event)
    requires Enabled(s, e) && Unique(s) && e.RemoveHash? && !Guarded(s, e)
    ensures !Unique(Next(s, e))
  {
    ChildErasesHash(s, e);
    hide Next, Live, Waiting, Shape;
    assert Live(Next(s, e), s.tasks[e.at].job.hash) >= 1;
  }

  /** A step keeps hashes unique exactly if it is guarded. */
  lemma UniqueExactlyIfGuarded(s: State, e: Event)
    requires Enabled(s, e) && Unique(s)
    ensures Unique(Next(s, e)) <==> Guarded(s, e)
  {
    if Guarded(s, e) {
      GuardedKeepsUnique(s, e);
    } else if e.IngestCheck? {
      RacedCheckBreaksUnique(s, e);
    } else {
      ErasureBreaksUnique(s, e);
    }
    hide Unique, Next, Enabled;
  }

  ghost predicate GuardedRun(s: State, events: seq<Event>)
    requires CanRun(s, events)
    decreases |events|
  {
    events == [] || (Guarded(s, events[0]) && GuardedRun(Next(s, events[0]), events[1..]))
  }

  ghost predicate AlwaysUnique(s: State, events: seq<Event>)
    requires CanRun(s, events)
    decreases |events|
  {
    Unique(s) && (events == [] || AlwaysUnique(Next(s, events[0]), events[1..]))
  }

  /** Hashes stay unique throughout a run exactly if each of its events is guarded. */
  lemma {:induction false} RunsStayUniqueExactlyIfGuarded(s: State, events: seq<Event>)
    requires CanRun(s, events) && Unique(s)
    ensures AlwaysUnique(s, events) <==> GuardedRun(s, events)
    decreases |events|
  {
    hide Unique, Next, Enabled, Guarded;
    if events != [] {
      UniqueExactlyIfGuarded(s, events[0]);
      if Guarded(s, events[0]) {
        RunsStayUniqueExactlyIfGuarded(Next(s, events[0]), events[1..]);
      } else if CanRun(Next(s, events[0]), events[1..]) {
        assert !AlwaysUnique(Next(s, events[0]), events[1..]);
      }
    }
  }

  ghost predicate AlwaysNoneDead(s: State, events: seq<Event>)
    requires CanRun(s, events)
    decreases |events|
  {
    NoneDead(s) && (events == [] || AlwaysNoneDead(Next(s, events[0]), events[1..]))
  }

  ghost predicate RootsSpawn(s: State, events: seq<Event>)
    requires CanRun(s, events)
    decreases |events|
  {
    events == []
    || (!(FailsSpawn(s, events[0]) && s.lock.job.parent.None?) && RootsSpawn(Next(s, events[0]), events[1..]))
  }

  /** Where hashes stay unique, each of them has a live owner throughout a run exactly if no root job fails to spawn. */
  lemma {:induction false} RunsLeaveNoneDeadExactly(s: State, events: seq<Event>)
    requires CanRun(s, events) && GuardedRun(s, events) && Unique(s) && NoneDead(s)
    ensures AlwaysNoneDead(s, events) <==> RootsSpawn(s, events)
    decreases |events|
  {
    if events != [] {
      UniqueExactlyIfGuarded(s, events[0]);
      DeadHashExactlyAfterFailedSpawn(s, events[0]);
      hide Unique, NoneDead, Next, Enabled, Guarded;
      if NoneDead(Next(s, events[0])) {
        RunsLeaveNoneDeadExactly(Next(s, events[0]), events[1..]);
      }
    }
  }

  /** An accepted job gets a live twin exactly when another caller with its hash is between check and insertion. */
  lemma TwinAcceptedExactlyInRace(s: State, job: Job)
    requires Unique(s) && Enabled(s, IngestCheck(job)) && job.hash !in s.hashes
    ensures var s' := Next(s, IngestCheck(job));
            Live(s', job.hash) + Waiting(s', job.hash) >= 2 <==> Waiting(s, job.hash) >= 1
  {
    EventsBalance(s, IngestCheck(job), job.hash);
  }

  /** A finishing child erases its hash, and the roots that own it stay alive. */
  lemma ChildErasesHash(s: State, e: Event)
    requires Enabled(s, e) && Shape(s) && e.RemoveHash? && s.tasks[e.at].job.parent.Some?
    ensures s.tasks[e.at].job.hash !in Next(s, e).hashes
    ensures Live(Next(s, e), s.tasks[e.at].job.hash) == Live(s, s.tasks[e.at].job.hash)
  {
    var h := s.tasks[e.at].job.hash;
    HashesChange(s, e);
    MoveFrame(s, e);
    hide Next, Live, Waiting;
    EventsBalance(s, e, h);
  }

  /** And then the next job with that hash is let in beside the live root. */
  lemma ErasedHashAdmitsTwin(s: State, job: Job)
    requires Shape(s) && Enabled(s, IngestCheck(job)) && job.hash !in s.hashes && Live(s, job.hash) >= 1
    ensures var s' := Next(s, IngestCheck(job)); Live(s', job.hash) + Waiting(s', job.hash) >= 2
  {
    EventsBalance(s, IngestCheck(job), job.hash);
  }

  lemma LoneJobIsFresh(s: State, job: Job)
    requires job.parent == None && job.rest == [] && job.id !in s.accepted
    ensures FreshJob(s, job) && IdSet(job) == {job.id}
  {
    assert JobIds(job) == multiset{job.id};
  }

  lemma StepThen(s: State, e: Event, rest: seq<Event>)
    requires Enabled(s, e) && CanRun(Next(s, e), rest)
    ensures CanRun(s, [e] + rest) && Exec(s, [e] + rest) == Exec(Next(s, e), rest)
  {
    assert ([e] + rest)[1..] == rest;
  }

  lemma TwoOwners(s: State, a: Job, b: Job)
    requires s.ingests == [Ingest(a, true)] + [Ingest(b, true)] && a.hash == b.hash
    ensures Live(s, a.hash) >= 2
  {
    CountPush(InsertedHash, [Ingest(a, true)], Ingest(b, true), a.hash);
    CollectOne(InsertedHash, Ingest(a, true));
  }

  /** The check and the insertion take the lock separately: two equal jobs ingested at once are both accepted. */
  lemma RacingIngestsAreBothAccepted(a: Id, b: Id, hash: nat)
    requires a != b
    ensures var run := [IngestCheck(Job(a, hash, None, []))] + ([IngestCheck(Job(b, hash, None, []))]
                       + ([IngestInsert(0)] + ([IngestInsert(1)] + [])));
            CanRun(INITIAL, run) && Live(Exec(INITIAL, run), hash) >= 2
  {
    var ja, jb := Job(a, hash, None, []), Job(b, hash, None, []);
    hide FreshJob, IdSet, Live;
    LoneJobIsFresh(INITIAL, ja);
    var s1 := Next(INITIAL, IngestCheck(ja));
    assert s1.ingests == [Ingest(ja, false)] && s1.hashes == {};
    LoneJobIsFresh(s1, jb);
    var s2 := Next(s1, IngestCheck(jb));
    assert s2.ingests == [Ingest(ja, false), Ingest(jb, false)];
    var s3 := Next(s2, IngestInsert(0));
    assert s3.ingests == [Ingest(ja, true), Ingest(jb, false)];
    var s4 := Next(s3, IngestInsert(1));
    assert s4.ingests == [Ingest(ja, true)] + [Ingest(jb, true)];
    TwoOwners(s4, ja, jb);
    hide Next, Enabled, Collect;
    StepThen(s3, IngestInsert(1), []);
    StepThen(s2, IngestInsert(0), [IngestInsert(1)] + []);
    StepThen(s1, IngestCheck(jb), [IngestInsert(0)] + ([IngestInsert(1)] + []));
    StepThen(INITIAL, IngestCheck(ja), [IngestCheck(jb)] + ([IngestInsert(0)] + ([IngestInsert(1)] + [])));
  }
}
