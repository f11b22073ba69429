/** Runs of the manager from its empty state, put together section by section, that end where its promises stop. */
module JobTraces {
  import opened Outcomes
  import opened Bags
  import opened JobManager
  import opened JobHashes

  ghost predicate Reaches(events: seq<Event>, s: State) {
    CanRun(INITIAL, events) && Exec(INITIAL, events) == s
  }

  lemma {:induction false} ExecAppend(s: State, events: seq<Event>, e: Event)
    requires CanRun(s, events) && Enabled(Exec(s, events), e)
    ensures CanRun(s, events + [e]) && Exec(s, events + [e]) == Next(Exec(s, events), e)
    decreases |events|
  {
    hide Enabled, Next;
    if events != [] {
      assert (events + [e])[0] == events[0] && (events + [e])[1..] == events[1..] + [e];
      ExecAppend(Next(s, events[0]), events[1..], e);
    } else {
      assert [e][1..] == [] && [] + [e] == [e];
    }
  }

  lemma Go(events: seq<Event>, s: State, e: Event) returns (events': seq<Event>, s': State)
    requires Reaches(events, s) && Enabled(s, e)
    ensures s' == Next(s, e) && Reaches(events', s')
  {
    ExecAppend(INITIAL, events, e);
    events', s' := events + [e], Next(s, e);
  }

  /** A caller gets a new job as far as the lock of the worker map. */
  lemma Admit(events: seq<Event>, s: State, job: Job) returns (events': seq<Event>, s': State)
    requires Reaches(events, s) && s.lock == Free && s.ingests == []
    requires FreshJob(s, job) && job.hash !in s.hashes
    ensures Reaches(events', s')
    ensures s' == s.(hashes := s.hashes + {job.hash}, accepted := s.accepted + IdSet(job), lock := Held(job))
  {
    hide Reaches, FreshJob, IdSet;
    events', s' := Go(events, s, IngestCheck(job));
    assert s'.ingests == [Ingest(job, false)];
    events', s' := Go(events', s', IngestInsert(0));
    assert s'.ingests == [Ingest(job, true)];
    events', s' := Go(events', s', AcquireForIngest(0));
    assert s'.ingests == [];
  }

  /** The holder of the lock runs its job or queues it. */
  lemma Settle(events: seq<Event>, s: State, job: Job) returns (events': seq<Event>, s': State)
    requires Reaches(events, s) && s.lock == Held(job)
    ensures Reaches(events', s')
    ensures s' == if |s.workers| >= MAX_WORKERS then s.(lock := Free, queue := s.queue + [job])
                  else s.(lock := Free, workers := s.workers + {WorkerId(job)}, tasks := s.tasks + [Task(WorkerId(job), job, Working)])
  {
    hide Reaches, FreshJob;
    events', s' := Go(events, s, Decide(true));
    if |s.workers| < MAX_WORKERS {
      events', s' := Go(events', s', InsertWorker);
    }
  }

  /** The first task's job ends, and the task leaves the pool. */
  lemma Leave(events: seq<Event>, s: State, t: Task, ending: Ending, rest: seq<Task>) returns (events': seq<Event>, s': State)
    requires Reaches(events, s) && s.lock == Free && s.tasks == [t] + rest && t.stage.Working?
    ensures Reaches(events', s')
    ensures s' == s.(hashes := s.hashes - {t.job.hash}, workers := s.workers - {t.worker},
                     finished := s'.finished, stopped := s'.stopped,
                     lost := s.lost + if ending.Crashed? || ending.CompletedInTimeout? then RestIds(t.job.rest) else multiset{},
                     tasks := [t.(stage := Advancing(if ending.Completed? then NextJob(t.job) else None))] + rest)
  {
    hide Reaches, FreshJob, RestIds;
    var next := if ending.Completed? then NextJob(t.job) else None;
    events', s' := Go(events, s, Finish(0, ending));
    assert s'.tasks == [t.(stage := Hashing(next))] + rest;
    events', s' := Go(events', s', RemoveHash(0));
    assert s'.tasks == [t.(stage := Removing(next))] + rest;
    events', s' := Go(events', s', RemoveWorker(0));
    assert s'.tasks == [t.(stage := Advancing(next))] + rest;
  }

  lemma Nothing()
    ensures Reaches([], INITIAL)
  {
  }

  /* ----- a child that is dropped ----- */

  const PARENT: Job := Job(0, 0, None, [Child(1, 2)])

  lemma ParentIsFresh()
    ensures FreshJob(INITIAL, PARENT) && IdSet(PARENT) == {0, 1} && RestIds(PARENT.rest) == multiset{1}
  {
    assert PARENT.rest[1..] == [];
    assert JobIds(PARENT) == multiset{0, 1};
  }

  lemma EmptyIsQuiet(s: State)
    requires s.lock == Free && s.ingests == [] && s.mailbox == [] && s.tasks == []
    ensures Quiet(s)
  {
    hide FreshJob;
  }

  /** A job with a child crashes, or completes too late: the run is over, and the accepted child is lost. */
  lemma DroppedChildIsLost(ending: Ending) returns (events: seq<Event>, s: State)
    requires ending.Crashed? || ending.CompletedInTimeout?
    ensures Reaches(events, s) && Quiet(s) && s.queue == []
    ensures s.accepted == {0, 1} && s.lost == multiset{1} && s.failures == 0
  {
    Nothing();
    ParentIsFresh();
    hide Reaches, FreshJob, IdSet, RestIds, Quiet;
    var t := Task(0, PARENT, Working);
    events, s := Admit([], INITIAL, PARENT);
    events, s := Settle(events, s, PARENT);
    assert s.tasks == [t] + [];
    events, s := Leave(events, s, t, ending, []);
    events, s := Go(events, s, Advance(0));
    assert s.tasks == [];
    EmptyIsQuiet(s);
  }

  /* ----- a hash that nobody drops ----- */

  /** The spawn of a lone job fails: the run is over, nothing lives, and the hash is still in the set. */
  lemma FailedSpawnLeavesHash(id: Id, hash: nat) returns (events: seq<Event>, s: State)
    ensures Reaches(events, s) && Quiet(s) && hash in s.hashes && Live(s, hash) == 0
  {
    var job := Job(id, hash, None, []);
    Nothing();
    LoneJobIsFresh(INITIAL, job);
    hide Reaches, FreshJob, IdSet, Quiet;
    events, s := Admit([], INITIAL, job);
    events, s := Go(events, s, Decide(false));
    EmptyIsQuiet(s);
    assert Collect(InsertedHash, s.ingests) == multiset{} && Collect(TaskHash, s.tasks) == multiset{};
  }

  /* ----- a twin that a child lets in ----- */

  const FIRST: Job := Job(2, 2, None, [])
  const SECOND: Job := Job(3, 2, None, [])
  const CHILD: Job := Job(1, 2, Some(0), [])

  /** A parent and a root job with the hash of its child are running. */
  lemma TwoRun() returns (events: seq<Event>, s: State)
    ensures Reaches(events, s) && s.lock == Free && s.ingests == [] && s.mailbox == [] && s.queue == []
    ensures s.hashes == {0, 2} && s.workers == {0, 2} && s.accepted == {0, 1, 2}
    ensures s.tasks == [Task(0, PARENT, Working)] + [Task(2, FIRST, Working)]
  {
    Nothing();
    ParentIsFresh();
    hide Reaches, FreshJob, IdSet;
    events, s := Admit([], INITIAL, PARENT);
    events, s := Settle(events, s, PARENT);
    LoneJobIsFresh(s, FIRST);
    events, s := Admit(events, s, FIRST);
    events, s := Settle(events, s, FIRST);
  }

  /** The parent completes, and its child runs and completes beside that job. */
  lemma ChildCompletes() returns (events: seq<Event>, s: State)
    ensures Reaches(events, s) && s.lock == Free && s.ingests == [] && s.accepted == {0, 1, 2} && s.hashes == {}
    ensures s.tasks == [Task(2, FIRST, Working), Task(0, CHILD, Removing(None))]
  {
    events, s := TwoRun();
    hide Reaches, FreshJob, IdSet;
    var first := Task(2, FIRST, Working);
    events, s := Leave(events, s, Task(0, PARENT, Working), Completed, [first]);
    assert PARENT.rest[1..] == [] && NextJob(PARENT) == Some(CHILD);
    events, s := Go(events, s, Advance(0));
    assert s.tasks == [first] && s.mailbox == [CHILD];
    events, s := Go(events, s, AcquireForMailbox);
    events, s := Settle(events, s, CHILD);
    assert s.tasks == [first, Task(0, CHILD, Working)];
    events, s := Go(events, s, Finish(1, Completed));
    assert s.tasks == [first, Task(0, CHILD, Hashing(None))];
    events, s := Go(events, s, RemoveHash(1));
    assert s.tasks == [first, Task(0, CHILD, Removing(None))];
    assert s.hashes == {};
  }

  /** A run in which a completing child lets in a second job with the hash of a live one. */
  lemma ChildLetsTwinIn() returns (events: seq<Event>, s: State)
    ensures Reaches(events, s) && Live(s, 2) >= 2 && s.lock == Held(SECOND)
    ensures s.tasks != [] && s.tasks[0] == Task(2, FIRST, Working)
  {
    events, s := ChildCompletes();
    hide Reaches, FreshJob, IdSet;
    LoneJobIsFresh(s, SECOND);
    events, s := Admit(events, s, SECOND);
    CountRemove(TaskHash, s.tasks, 0, 2);
    hide Collect;
  }
}
