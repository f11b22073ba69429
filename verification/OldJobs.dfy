/**
 The manager object. Each method is one section that the program runs under one lock, updating the
 fields in place, and is proved to be one event of the state machine in `JobManager`.
 */
module OldJobsObject {
  import opened Outcomes
  import opened JobManager

  class OldJobs {
    var currentJobsHashes: set<nat>
    var jobQueue: seq<Job>
    var runningWorkers: set<Id>
    var mailbox: seq<Job>

    // the callers inside `ingest`, the dispatch that holds the lock, and the spawned worker tasks
    var ingests: seq<Ingest>
    var lock: Lock
    var tasks: seq<Task>

    ghost var history: State

    constructor ()
      ensures View() == INITIAL
    {
      currentJobsHashes, jobQueue, runningWorkers, mailbox := {}, [], {}, [];
      ingests, lock, tasks := [], Free, [];
      history := INITIAL;
    }

    ghost function View(): State
      reads this
    {
      history.(hashes := currentJobsHashes, queue := jobQueue, workers := runningWorkers, mailbox := mailbox,
               ingests := ingests, lock := lock, tasks := tasks)
    }

    /** `ingest`, under the read lock of the hash set. */
    method CheckHash(job: Job) returns (accepted: bool)
      requires FreshJob(View(), job)
      modifies this
      ensures accepted <==> job.hash !in old(currentJobsHashes)
      ensures View() == Next(old(View()), IngestCheck(job))
    {
      ghost var before := View();
      accepted := job.hash !in currentJobsHashes;
      if accepted {
        ingests := ingests + [Ingest(job, false)];
      }
      history := Next(before, IngestCheck(job));
    }

    /** `ingest`, under the write lock of the hash set. */
    method InsertHash(at: nat)
      requires Enabled(View(), IngestInsert(at))
      modifies this
      ensures View() == Next(old(View()), IngestInsert(at))
    {
      currentJobsHashes := currentJobsHashes + {ingests[at].job.hash};
      ingests := ingests[at := ingests[at].(inserted := true)];
    }

    /** `dispatch` called by `ingest`: taking the write lock of the worker map. */
    method LockForIngest(at: nat)
      requires Enabled(View(), AcquireForIngest(at))
      modifies this
      ensures View() == Next(old(View()), AcquireForIngest(at))
    {
      lock := Held(ingests[at].job);
      ingests := ingests[..at] + ingests[at + 1..];
    }

    /** `dispatch` called by the actor for the event at the head of the mailbox. */
    method LockForMailbox()
      requires Enabled(View(), AcquireForMailbox)
      modifies this
      ensures View() == Next(old(View()), AcquireForMailbox)
      ensures lock.Held? && [lock.job] + mailbox == old(mailbox)
    {
      lock, mailbox := Held(mailbox[0]), mailbox[1..];
    }

    /** `dispatch` under the lock: run the job if a slot is free, queue it otherwise. */
    method Decide(spawns: bool)
      requires lock.Held?
      modifies this
      ensures View() == Next(old(View()), Event.Decide(spawns))
    {
      ghost var before := View();
      var job := lock.job;
      if |runningWorkers| < MAX_WORKERS {
        var workerId := match job.parent case Some(id) => id case None => job.id;
        if spawns {
          tasks := tasks + [Task(workerId, job, Working)];
          lock := Spawned(workerId);
        } else {
          lock := Free;
        }
      } else {
        jobQueue := jobQueue + [job];
        lock := Free;
      }
      history := Next(before, Event.Decide(spawns));
    }

    /** `dispatch`: recording the spawned worker and releasing the lock. */
    method RecordWorker()
      requires lock.Spawned?
      modifies this
      ensures View() == Next(old(View()), InsertWorker)
    {
      runningWorkers, lock := runningWorkers + {lock.worker}, Free;
    }

    /** The worker's task reaches the end of its job. */
    method EndJob(at: nat, ending: Ending)
      requires Enabled(View(), Finish(at, ending))
      modifies this
      ensures View() == Next(old(View()), Finish(at, ending))
      ensures var job := old(tasks[at].job);
              && tasks[at].stage.Hashing?
              && tasks[at].stage.next ==
                 if ending.Completed? && job.rest != []
                 then Some(Job(job.rest[0].id, job.rest[0].hash, Some(if job.parent.Some? then job.parent.value else job.id), job.rest[1..]))
                 else None
    {
      ghost var before := View();
      var job, next := tasks[at].job, None;
      if ending.Completed? && job.rest != [] {
        var child := job.rest[0];
        next := Some(Job(child.id, child.hash, Some(WorkerId(job)), job.rest[1..]));
      }
      tasks := tasks[at := tasks[at].(stage := Hashing(next))];
      history := Next(before, Finish(at, ending));
    }

    /** `complete`, first section. */
    method DropHash(at: nat)
      requires Enabled(View(), RemoveHash(at))
      modifies this
      ensures View() == Next(old(View()), RemoveHash(at))
    {
      currentJobsHashes := currentJobsHashes - {tasks[at].job.hash};
      tasks := tasks[at := tasks[at].(stage := Removing(tasks[at].stage.next))];
    }

    /** `complete`, second section. */
    method LeavePool(at: nat)
      requires Enabled(View(), RemoveWorker(at))
      modifies this
      ensures View() == Next(old(View()), RemoveWorker(at))
    {
      runningWorkers := runningWorkers - {tasks[at].worker};
      tasks := tasks[at := tasks[at].(stage := Advancing(tasks[at].stage.next))];
    }

    /** `complete`, last section: post the next job of the chain, or else the head of the queue. */
    method PostNext(at: nat)
      requires Enabled(View(), Advance(at))
      modifies this
      ensures View() == Next(old(View()), Advance(at))
    {
      var job := tasks[at].stage.next;
      if job.None? && jobQueue != [] {
        job := Some(jobQueue[0]);
        jobQueue := jobQueue[1..];
      }
      if job.Some? {
        mailbox := mailbox + [job.value];
      }
      tasks := tasks[..at] + tasks[at + 1..];
    }

    /**
     `ingest` with nobody in between: a job whose hash is in the set changes nothing; any other enters
     its hash and runs if a slot is free and its spawn succeeds, or waits at the end of the queue.
     */
    method IngestJob(job: Job, spawns: bool) returns (accepted: bool)
      requires Inv(View()) && FreshJob(View(), job) && lock == Free && ingests == []
      modifies this
      ensures Inv(View()) && lock == Free && ingests == [] && mailbox == old(mailbox)
      ensures accepted <==> job.hash !in old(currentJobsHashes)
      ensures !accepted ==> View() == old(View())
      ensures accepted ==> currentJobsHashes == old(currentJobsHashes) + {job.hash}
      ensures var free := |old(runningWorkers)| < MAX_WORKERS;
              && runningWorkers == (if accepted && free && spawns then old(runningWorkers) + {job.id} else old(runningWorkers))
              && jobQueue == (if accepted && !free then old(jobQueue) + [job] else old(jobQueue))
    {
      ghost var s := View();
      accepted := CheckHash(job);
      InvKept(s, IngestCheck(job));
      if !accepted {
        return;
      }
      hide Inv, FreshJob;
      s := View();
      InsertHash(0);
      InvKept(s, IngestInsert(0));
      s := View();
      LockForIngest(0);
      InvKept(s, AcquireForIngest(0));
      s := View();
      Decide(spawns);
      InvKept(s, Event.Decide(spawns));
      if lock.Spawned? {
        s := View();
        RecordWorker();
        InvKept(s, InsertWorker);
      }
    }

    /**
     `complete` with nobody in between: the worker, which is in the map, and its hash leave, and one
     job is posted if the chain or the queue has one.
     */
    method Complete(at: nat)
      requires Inv(View()) && lock == Free && at < |tasks| && tasks[at].stage.Hashing?
      modifies this
      ensures Inv(View()) && lock == Free && |tasks| == |old(tasks)| - 1
      ensures var t := old(tasks[at]);
              && currentJobsHashes == old(currentJobsHashes) - {t.job.hash}
              && t.worker in old(runningWorkers) && runningWorkers == old(runningWorkers) - {t.worker}
              && (if t.stage.next.Some? then mailbox == old(mailbox) + [t.stage.next.value] && jobQueue == old(jobQueue)
                  else mailbox + jobQueue == old(mailbox) + old(jobQueue)
                       && |mailbox| == |old(mailbox)| + (if old(jobQueue) == [] then 0 else 1))
    {
      ghost var s := View();
      hide Inv;
      DropHash(at);
      InvKept(s, RemoveHash(at));
      s := View();
      RemovalFollowsInsertion(s, RemoveWorker(at));
      LeavePool(at);
      InvKept(s, RemoveWorker(at));
      s := View();
      PostNext(at);
      InvKept(s, Advance(at));
    }

    /**
     The actor's loop while no worker interferes: it empties the mailbox. Running jobs stay within the
     limit whatever it finds and whichever spawns fail, and jobs are only moved between places.
     */
    method DrainMailbox()
      requires Inv(View()) && lock == Free
      modifies this
      ensures Inv(View()) && lock == Free && mailbox == []
      ensures |runningWorkers| <= 5 && View().accepted == old(View().accepted)
      ensures |old(runningWorkers)| + |old(mailbox)| <= MAX_WORKERS ==> jobQueue == old(jobQueue)
    {
      while mailbox != []
        invariant Inv(View()) && lock == Free && View().accepted == old(View().accepted)
        invariant |old(runningWorkers)| + |old(mailbox)| <= MAX_WORKERS ==>
                    jobQueue == old(jobQueue) && |runningWorkers| + |mailbox| <= MAX_WORKERS
        decreases |mailbox|
      {
        ghost var s := View();
        LockForMailbox();
        InvKept(s, AcquireForMailbox);
        s := View();
        var spawns: bool := *;
        Decide(spawns);
        InvKept(s, Event.Decide(spawns));
        if lock.Spawned? {
          s := View();
          RecordWorker();
          InvKept(s, InsertWorker);
        }
      }
      assert Inv(View()) ==> SlotInv(View());
    }
  }
}
