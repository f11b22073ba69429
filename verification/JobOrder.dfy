/** The order in which the jobs of a chain are spawned, and the order in which waiting jobs are taken up. */
module JobOrder {
  import opened Outcomes
  import opened Bags
  import opened JobManager

  /** The identifiers of a job and of the children behind it, in the order they were queued. */
  function Line(job: Job): (ids: seq<Id>)
    ensures |ids| == 1 + |job.rest| && ids[0] == job.id
    ensures forall i :: 0 <= i < |job.rest| ==> ids[i + 1] == job.rest[i].id
  {
    [job.id] + seq(|job.rest|, i requires 0 <= i < |job.rest| => job.rest[i].id)
  }

  ghost predicate Spawns(s: State, e: Event)
    requires Enabled(s, e)
  {
    e.Decide? && e.spawns && |s.workers| < MAX_WORKERS
  }

  /** The next jobs of a line, from its `n`-th on. */
  ghost predicate Advances(line: seq<Id>, n: nat, ids: seq<Id>) {
    n + |ids| <= |line| && ids == line[n..n + |ids|]
  }

  /** The jobs among `ids` that a run spawns, in the order it spawns them. */
  ghost function SpawnedIn(s: State, events: seq<Event>, ids: seq<Id>): seq<Id>
    requires CanRun(s, events)
    decreases |events|
  {
    if events == [] then [] else SpawnedBy(s, events[0], ids) + SpawnedIn(Next(s, events[0]), events[1..], ids)
  }

  ghost function SpawnedBy(s: State, e: Event, ids: seq<Id>): seq<Id>
    requires Enabled(s, e)
  {
    if Spawns(s, e) && s.lock.job.id in ids then [s.lock.job.id] else []
  }

  ghost predicate Foreign(job: Job, line: seq<Id>) {
    forall i :: 0 <= i < |Line(job)| ==> Line(job)[i] !in line
  }

  /** A job of the chain `c` is what is left of its line after `n` jobs; any other job has no part in it. */
  ghost predicate LeftAfter(job: Job, c: Id, line: seq<Id>, n: nat) {
    n <= |line| && if WorkerId(job) == c then Line(job) == line[n..] else Foreign(job, line)
  }

  ghost predicate TaskInLine(t: Task, c: Id, line: seq<Id>, n: nat) {
    if t.stage.Working? then (if WorkerId(t.job) == c then n > 0 && LeftAfter(t.job, c, line, n - 1) else Foreign(t.job, line))
    else t.stage.next.Some? ==> LeftAfter(t.stage.next.value, c, line, n)
  }

  /** `n` jobs of the line have been spawned, and wherever the chain is, it goes on from there. */
  ghost predicate InLine(s: State, c: Id, line: seq<Id>, n: nat) {
    && n <= |line| && c in s.accepted && (forall id :: id in line ==> id in s.accepted)
    && (forall i :: 0 <= i < |s.ingests| ==> LeftAfter(s.ingests[i].job, c, line, n))
    && (forall i :: 0 <= i < |s.mailbox| ==> LeftAfter(s.mailbox[i], c, line, n))
    && (forall i :: 0 <= i < |s.queue| ==> LeftAfter(s.queue[i], c, line, n))
    && (s.lock.Held? ==> LeftAfter(s.lock.job, c, line, n))
    && (forall i :: 0 <= i < |s.tasks| ==> TaskInLine(s.tasks[i], c, line, n))
  }

  /* ----- lines and places ----- */

  lemma {:induction false} RestCounts(rest: seq<Child>, i: nat)
    requires i < |rest|
    ensures RestIds(rest)[rest[i].id] >= 1
    decreases |rest|
  {
    assert RestIds(rest) == multiset{rest[0].id} + RestIds(rest[1..]);
    if i > 0 {
      RestCounts(rest[1..], i - 1);
    }
  }

  lemma {:induction false} RestTwice(rest: seq<Child>, i: nat, j: nat)
    requires i < j < |rest| && rest[i].id == rest[j].id
    ensures RestIds(rest)[rest[i].id] >= 2
    decreases |rest|
  {
    assert RestIds(rest) == multiset{rest[0].id} + RestIds(rest[1..]);
    if i > 0 {
      RestTwice(rest[1..], i - 1, j - 1);
    } else {
      RestCounts(rest[1..], j - 1);
    }
  }

  lemma LineCounts(job: Job, i: nat)
    requires i < |Line(job)|
    ensures JobIds(job)[Line(job)[i]] >= 1
  {
    if i > 0 {
      RestCounts(job.rest, i - 1);
    }
  }

  lemma LineCountsTwice(job: Job, i: nat, j: nat)
    requires i < j < |Line(job)| && Line(job)[i] == Line(job)[j]
    ensures JobIds(job)[Line(job)[i]] >= 2
  {
    if i > 0 {
      RestTwice(job.rest, i - 1, j - 1);
    } else {
      RestCounts(job.rest, j - 1);
    }
    hide RestIds;
  }

  /** A fresh job's line names each of its jobs once, and none that was seen before. */
  lemma FreshLine(s: State, job: Job)
    requires FreshJob(s, job)
    ensures forall i, j :: 0 <= i < j < |Line(job)| ==> Line(job)[i] != Line(job)[j]
    ensures forall id :: id in Line(job) ==> id !in s.accepted && id in IdSet(job)
  {
    var line := Line(job);
    forall id | id in line ensures id !in s.accepted && id in IdSet(job) {
      var i :| 0 <= i < |line| && line[i] == id;
      LineCounts(job, i);
    }
    forall i, j | 0 <= i < j < |line| ensures line[i] != line[j] {
      if line[i] == line[j] {
        LineCountsTwice(job, i, j);
      }
      hide JobIds, Line;
    }
  }

  lemma CountAt<T, E>(f: T -> multiset<E>, s: seq<T>, i: nat, e: E)
    requires i < |s|
    ensures Collect(f, s)[e] >= f(s[i])[e]
  {
    CountRemove(f, s, i, e);
  }

  lemma NextInLine(job: Job, c: Id, line: seq<Id>, n: nat)
    requires job.rest != []
    ensures WorkerId(NextJob(job).value) == WorkerId(job) && Line(NextJob(job).value) == Line(job)[1..]
    ensures Foreign(job, line) ==> Foreign(NextJob(job).value, line)
    ensures n > 0 && LeftAfter(job, c, line, n - 1) && WorkerId(job) == c ==> LeftAfter(NextJob(job).value, c, line, n)
  {
    var next := NextJob(job).value;
    assert Line(next) == Line(job)[1..];
    assert forall i :: 0 <= i < |Line(next)| ==> Line(next)[i] == Line(job)[i + 1];
    hide Line;
  }

  lemma NoOtherCarrier(s: State, c: Id)
    requires Inv(s) && s.lock.Held? && WorkerId(s.lock.job) == c
    ensures Collect(IngestChain, s.ingests)[c] == 0 && Collect(JobChain, s.mailbox)[c] == 0
    ensures Collect(JobChain, s.queue)[c] == 0 && Collect(TaskChain, s.tasks)[c] == 0
  {
    assert Carriers(s, c) <= Has(s.accepted, c);
    hide Collect, Inv;
  }

  ghost predicate NotIn(s: State, c: Id) {
    && (forall i :: 0 <= i < |s.ingests| ==> WorkerId(s.ingests[i].job) != c)
    && (forall i :: 0 <= i < |s.mailbox| ==> WorkerId(s.mailbox[i]) != c)
    && (forall i :: 0 <= i < |s.queue| ==> WorkerId(s.queue[i]) != c)
    && (forall i :: 0 <= i < |s.tasks| ==> TaskChain(s.tasks[i])[c] == 0)
  }

  /** While a dispatch holds a job of a chain, the chain is nowhere else. */
  lemma OnlyCarrier(s: State, c: Id)
    requires Inv(s) && s.lock.Held? && WorkerId(s.lock.job) == c
    ensures NotIn(s, c)
  {
    NoOtherCarrier(s, c);
    ZeroMeansNowhere(s, c);
    hide Inv, Collect, TaskChain;
  }

  lemma ZeroMeansNowhere(s: State, c: Id)
    requires Collect(IngestChain, s.ingests)[c] == 0 && Collect(JobChain, s.mailbox)[c] == 0
    requires Collect(JobChain, s.queue)[c] == 0 && Collect(TaskChain, s.tasks)[c] == 0
    ensures NotIn(s, c)
  {
    hide Collect, TaskChain;
    forall i | 0 <= i < |s.ingests| ensures WorkerId(s.ingests[i].job) != c {
      CountAt(IngestChain, s.ingests, i, c);
    }
    forall i | 0 <= i < |s.mailbox| ensures WorkerId(s.mailbox[i]) != c {
      CountAt(JobChain, s.mailbox, i, c);
    }
    forall i | 0 <= i < |s.queue| ensures WorkerId(s.queue[i]) != c {
      CountAt(JobChain, s.queue, i, c);
    }
    forall i | 0 <= i < |s.tasks| ensures TaskChain(s.tasks[i])[c] == 0 {
      CountAt(TaskChain, s.tasks, i, c);
    }
  }

  lemma MoveKeepsLine(s: State, e: Event, c: Id, line: seq<Id>, n: nat)
    requires Enabled(s, e) && Moves(e) && InLine(s, c, line, n)
    ensures InLine(Next(s, e), c, line, n)
  {
    MoveFrame(s, e);
    var t := s.tasks[e.at];
    assert TaskInLine(t, c, line, n);
    if e.Finish? && t.job.rest != [] {
      NextInLine(t.job, c, line, n);
    }
    hide Next, Line, LeftAfter, Foreign;
    assert TaskInLine(Moved(t, e), c, line, n);
  }

  lemma AdvanceKeepsLine(s: State, e: Event, c: Id, line: seq<Id>, n: nat)
    requires Enabled(s, e) && e.Advance? && InLine(s, c, line, n)
    ensures InLine(Next(s, e), c, line, n)
  {
    assert TaskInLine(s.tasks[e.at], c, line, n);
    hide LeftAfter, Foreign, FreshJob;
  }

  lemma IngestKeepsLine(s: State, e: Event, c: Id, line: seq<Id>, n: nat)
    requires Enabled(s, e) && InIngest(e) && InLine(s, c, line, n)
    ensures InLine(Next(s, e), c, line, n)
  {
    if e.IngestCheck? {
      FreshLine(s, e.job);
      assert Foreign(e.job, line) && WorkerId(e.job) == Line(e.job)[0];
      assert LeftAfter(e.job, c, line, n);
    }
    hide LeftAfter, Foreign, FreshJob, IdSet;
  }

  lemma SpawnFrame(s: State, e: Event)
    requires Enabled(s, e) && Spawns(s, e)
    ensures var job := s.lock.job;
            Next(s, e) == s.(lock := Spawned(WorkerId(job)), tasks := s.tasks + [Task(WorkerId(job), job, Working)])
  {
  }

  /** A task of another chain does not mind how far the line has got. */
  lemma TaskElsewhere(t: Task, c: Id, line: seq<Id>, n: nat)
    requires TaskValid(t) && TaskChain(t)[c] == 0 && TaskInLine(t, c, line, n) && n < |line|
    ensures TaskInLine(t, c, line, n + 1)
  {
    hide Foreign, Line;
  }

  lemma OwnSpawnKeepsLine(s: State, c: Id, line: seq<Id>, n: nat)
    requires Inv(s) && s.lock.Held? && WorkerId(s.lock.job) == c && InLine(s, c, line, n)
    ensures n < |line| && line[n] == s.lock.job.id
    ensures var job := s.lock.job;
            InLine(s.(lock := Spawned(WorkerId(job)), tasks := s.tasks + [Task(WorkerId(job), job, Working)]), c, line, n + 1)
  {
    OnlyCarrier(s, c);
    var job := s.lock.job;
    assert LeftAfter(job, c, line, n) && Line(job)[0] == job.id && line[n..][0] == Line(job)[0];
    assert TasksValid(s);
    hide Inv, Line, Foreign;
    forall i | 0 <= i < |s.tasks| ensures TaskInLine(s.tasks[i], c, line, n + 1) {
      TaskElsewhere(s.tasks[i], c, line, n);
    }
    hide TaskInLine, TaskChain;
    OwnTask(job, c, line, n);
  }

  lemma OwnTask(job: Job, c: Id, line: seq<Id>, n: nat)
    requires WorkerId(job) == c && LeftAfter(job, c, line, n)
    ensures TaskInLine(Task(c, job, Working), c, line, n + 1)
  {
  }

  /** The lock's job takes its place in the line, if it has one. */
  lemma SpawnKeepsLine(s: State, e: Event, c: Id, line: seq<Id>, n: nat)
    requires Inv(s) && Enabled(s, e) && Spawns(s, e) && InLine(s, c, line, n)
    ensures var k := |SpawnedBy(s, e, line)|;
            Advances(line, n, SpawnedBy(s, e, line)) && InLine(Next(s, e), c, line, n + k)
  {
    SpawnFrame(s, e);
    var job := s.lock.job;
    if WorkerId(job) == c {
      OwnSpawnKeepsLine(s, c, line, n);
      hide Inv, Next, Enabled, InLine;
    } else {
      assert LeftAfter(job, c, line, n) && Line(job)[0] !in line;
      hide Inv, Next, Enabled, Line;
    }
  }

  lemma OthersKeepLine(s: State, e: Event, c: Id, line: seq<Id>, n: nat)
    requires Enabled(s, e) && InDispatch(e) && !Spawns(s, e) && InLine(s, c, line, n)
    ensures InLine(Next(s, e), c, line, n)
  {
    hide LeftAfter, Foreign, FreshJob;
  }

  lemma LineKept(s: State, e: Event, c: Id, line: seq<Id>, n: nat)
    requires Inv(s) && Enabled(s, e) && InLine(s, c, line, n)
    ensures var k := |SpawnedBy(s, e, line)|;
            Advances(line, n, SpawnedBy(s, e, line)) && InLine(Next(s, e), c, line, n + k)
  {
    assert n <= |line|;
    hide InLine, Inv, Next;
    if Spawns(s, e) {
      SpawnKeepsLine(s, e, c, line, n);
    } else {
      if InIngest(e) {
        IngestKeepsLine(s, e, c, line, n);
      } else if InDispatch(e) {
        OthersKeepLine(s, e, c, line, n);
      } else if Moves(e) {
        MoveKeepsLine(s, e, c, line, n);
      } else {
        AdvanceKeepsLine(s, e, c, line, n);
      }
    }
  }

  lemma AdvancesTwice(line: seq<Id>, n: nat, a: seq<Id>, b: seq<Id>)
    requires Advances(line, n, a) && Advances(line, n + |a|, b)
    ensures Advances(line, n, a + b)
  {
  }

  lemma AdvancesNot(s: State, c: Id, line: seq<Id>, n: nat)
    requires InLine(s, c, line, n)
    ensures Advances(line, n, [])
  {
  }

  lemma RunUnfolds(s: State, events: seq<Event>, line: seq<Id>)
    requires CanRun(s, events)
    ensures if events == [] then Exec(s, events) == s && SpawnedIn(s, events, line) == []
            else
              Enabled(s, events[0]) && CanRun(Next(s, events[0]), events[1..])
              && Exec(s, events) == Exec(Next(s, events[0]), events[1..])
              && SpawnedIn(s, events, line) == SpawnedBy(s, events[0], line) + SpawnedIn(Next(s, events[0]), events[1..], line)
  {
    hide Enabled, Next, SpawnedBy;
  }

  lemma {:induction false} RunKeepsLine(s: State, events: seq<Event>, c: Id, line: seq<Id>, n: nat)
    requires Inv(s) && CanRun(s, events) && InLine(s, c, line, n)
    ensures var ids := SpawnedIn(s, events, line);
            Advances(line, n, ids) && InLine(Exec(s, events), c, line, n + |ids|)
    decreases |events|
  {
    hide *;
    AdvancesNot(s, c, line, n);
    RunUnfolds(s, events, line);
    if events != [] {
      var s', first := Next(s, events[0]), SpawnedBy(s, events[0], line);
      LineKept(s, events[0], c, line, n);
      InvKept(s, events[0]);
      RunKeepsLine(s', events[1..], c, line, n + |first|);
      AdvancesTwice(line, n, first, SpawnedIn(s', events[1..], line));
      assert n + |first| + |SpawnedIn(s', events[1..], line)| == n + |SpawnedIn(s, events, line)|;
    }
  }

  /* ----- the order of a chain ----- */

  lemma PlaceBounds(s: State, id: Id)
    requires Inv(s)
    ensures var n := Has(s.accepted, id);
            && Collect(IngestIds, s.ingests)[id] <= n && Collect(JobIds, s.mailbox)[id] <= n && Collect(JobIds, s.queue)[id] <= n
            && LockIds(s.lock)[id] <= n && Collect(TaskIds, s.tasks)[id] <= n
  {
    assert Places(s, id) == Has(s.accepted, id);
    hide Collect, Inv, JobIds;
  }

  lemma JobsAreAccepted(s: State, jobs: seq<Job>, i: nat, id: Id)
    requires Collect(JobIds, jobs)[id] <= Has(s.accepted, id) && i < |jobs| && id in JobIds(jobs[i])
    ensures id in s.accepted
  {
    hide Collect, JobIds;
    CountAt(JobIds, jobs, i, id);
  }

  lemma IngestsAreAccepted(s: State, i: nat, id: Id)
    requires Collect(IngestIds, s.ingests)[id] <= Has(s.accepted, id) && i < |s.ingests| && id in JobIds(s.ingests[i].job)
    ensures id in s.accepted
  {
    hide Collect, JobIds;
    CountAt(IngestIds, s.ingests, i, id);
  }

  lemma TasksAreAccepted(s: State, i: nat, id: Id)
    requires Collect(TaskIds, s.tasks)[id] <= Has(s.accepted, id) && i < |s.tasks| && id in TaskIds(s.tasks[i])
    ensures id in s.accepted
  {
    hide Collect, TaskIds;
    CountAt(TaskIds, s.tasks, i, id);
  }

  lemma ForeignPlace(s: State, job: Job, line: seq<Id>)
    requires forall id :: id in line ==> id !in s.accepted
    requires forall id :: id in JobIds(job) ==> id in s.accepted
    ensures Foreign(job, line)
  {
    forall i | 0 <= i < |Line(job)| ensures Line(job)[i] !in line {
      LineCounts(job, i);
    }
  }

  lemma JobIsForeign(s: State, jobs: seq<Job>, i: nat, line: seq<Id>)
    requires (forall id :: Collect(JobIds, jobs)[id] <= Has(s.accepted, id)) && i < |jobs|
    requires forall id :: id in line ==> id !in s.accepted
    ensures Foreign(jobs[i], line)
  {
    hide Collect, JobIds;
    forall id | id in JobIds(jobs[i]) ensures id in s.accepted {
      JobsAreAccepted(s, jobs, i, id);
    }
    ForeignPlace(s, jobs[i], line);
  }

  lemma IngestIsForeign(s: State, i: nat, line: seq<Id>)
    requires (forall id :: Collect(IngestIds, s.ingests)[id] <= Has(s.accepted, id)) && i < |s.ingests|
    requires forall id :: id in line ==> id !in s.accepted
    ensures Foreign(s.ingests[i].job, line)
  {
    hide Collect, JobIds;
    forall id | id in JobIds(s.ingests[i].job) ensures id in s.accepted {
      IngestsAreAccepted(s, i, id);
    }
    ForeignPlace(s, s.ingests[i].job, line);
  }

  lemma TaskIsForeign(s: State, i: nat, job: Job, line: seq<Id>)
    requires (forall id :: Collect(TaskIds, s.tasks)[id] <= Has(s.accepted, id)) && i < |s.tasks| && TaskIds(s.tasks[i]) == JobIds(job)
    requires forall id :: id in line ==> id !in s.accepted
    ensures Foreign(job, line)
  {
    hide Collect, JobIds, TaskIds;
    forall id | id in JobIds(job) ensures id in s.accepted {
      TasksAreAccepted(s, i, id);
    }
    ForeignPlace(s, job, line);
  }

  lemma LockIsForeign(s: State, line: seq<Id>)
    requires (forall id :: LockIds(s.lock)[id] <= Has(s.accepted, id)) && s.lock.Held?
    requires forall id :: id in line ==> id !in s.accepted
    ensures Foreign(s.lock.job, line)
  {
    hide JobIds;
    forall id | id in JobIds(s.lock.job) ensures id in s.accepted {
      assert LockIds(s.lock)[id] <= Has(s.accepted, id);
    }
    ForeignPlace(s, s.lock.job, line);
  }

  lemma NewChainIsNowhere(s: State, c: Id)
    requires Inv(s) && c !in s.accepted
    ensures NotIn(s, c) && (s.lock.Held? ==> WorkerId(s.lock.job) != c)
  {
    assert Carriers(s, c) <= Has(s.accepted, c);
    ZeroMeansNowhere(s, c);
    hide Collect, Inv;
  }

  /** An accepted chain has a line of its own, none of which is spawned yet. */
  lemma StartsLine(s: State, job: Job)
    requires Inv(s) && Enabled(s, IngestCheck(job)) && job.hash !in s.hashes
    ensures InLine(Next(s, IngestCheck(job)), job.id, Line(job), 0)
  {
    var c, line, s' := job.id, Line(job), Next(s, IngestCheck(job));
    FreshLine(s, job);
    assert line[0] == c && line[0..] == line;
    NewChainIsNowhere(s, c);
    assert TasksValid(s);
    assert s' == s.(ingests := s.ingests + [Ingest(job, false)], accepted := s.accepted + IdSet(job));
    hide Enabled, Next, FreshJob, IdSet, Line, Foreign;
    OthersAreElsewhere(s, c, line);
    hide *;
    NewInLine(s, s', job, c, line);
  }

  /** No place has a part in a line that is not accepted yet. */
  ghost predicate Elsewhere(s: State, c: Id, line: seq<Id>) {
    && (forall i :: 0 <= i < |s.ingests| ==> LeftAfter(s.ingests[i].job, c, line, 0))
    && (forall i :: 0 <= i < |s.mailbox| ==> LeftAfter(s.mailbox[i], c, line, 0))
    && (forall i :: 0 <= i < |s.queue| ==> LeftAfter(s.queue[i], c, line, 0))
    && (s.lock.Held? ==> LeftAfter(s.lock.job, c, line, 0))
    && (forall i :: 0 <= i < |s.tasks| ==> TaskInLine(s.tasks[i], c, line, 0))
  }

  lemma OthersAreElsewhere(s: State, c: Id, line: seq<Id>)
    requires Inv(s) && TasksValid(s) && NotIn(s, c) && (s.lock.Held? ==> WorkerId(s.lock.job) != c)
    requires forall id :: id in line ==> id !in s.accepted
    ensures Elsewhere(s, c, line)
  {
    forall id
      ensures Collect(IngestIds, s.ingests)[id] <= Has(s.accepted, id) && Collect(JobIds, s.mailbox)[id] <= Has(s.accepted, id)
      ensures Collect(JobIds, s.queue)[id] <= Has(s.accepted, id) && LockIds(s.lock)[id] <= Has(s.accepted, id)
      ensures Collect(TaskIds, s.tasks)[id] <= Has(s.accepted, id)
    {
      PlaceBounds(s, id);
    }
    hide Inv, Collect, JobIds, Foreign;
    forall i | 0 <= i < |s.ingests| ensures LeftAfter(s.ingests[i].job, c, line, 0) {
      IngestIsForeign(s, i, line);
    }
    forall i | 0 <= i < |s.mailbox| ensures LeftAfter(s.mailbox[i], c, line, 0) {
      JobIsForeign(s, s.mailbox, i, line);
    }
    forall i | 0 <= i < |s.queue| ensures LeftAfter(s.queue[i], c, line, 0) {
      JobIsForeign(s, s.queue, i, line);
    }
    if s.lock.Held? {
      LockIsForeign(s, line);
    }
    forall i | 0 <= i < |s.tasks| ensures TaskInLine(s.tasks[i], c, line, 0) {
      var t := s.tasks[i];
      if t.stage.Working? {
        TaskIsForeign(s, i, t.job, line);
      } else if t.stage.next.Some? {
        TaskIsForeign(s, i, t.stage.next.value, line);
      }
    }
  }

  lemma NewInLine(s: State, s': State, job: Job, c: Id, line: seq<Id>)
    requires Elsewhere(s, c, line) && line == Line(job) && WorkerId(job) == c && c in IdSet(job)
    requires forall id :: id in line ==> id in IdSet(job)
    requires s' == s.(ingests := s.ingests + [Ingest(job, false)], accepted := s.accepted + IdSet(job))
    ensures InLine(s', c, line, 0)
  {
    assert line[0..] == line;
    hide Line, Foreign, IdSet, TaskInLine;
  }

  lemma SpawnedIsAccepted(s: State, e: Event)
    requires Inv(s) && Enabled(s, e) && Spawns(s, e)
    ensures s.lock.job.id in s.accepted
  {
    NextIdsOf(s.lock.job, s.lock.job.id);
    PlaceBounds(s, s.lock.job.id);
    hide Inv, Collect;
  }

  /** What a run has not accepted it has not spawned. */
  lemma {:induction false} NothingSpawnedUnaccepted(s: State, events: seq<Event>, ids: seq<Id>)
    requires Inv(s) && CanRun(s, events)
    ensures s.accepted <= Exec(s, events).accepted
    ensures (forall id :: id in ids ==> id !in Exec(s, events).accepted) ==> SpawnedIn(s, events, ids) == []
    decreases |events|
  {
    hide *;
    RunUnfolds(s, events, ids);
    if events != [] {
      var s' := Next(s, events[0]);
      InvKept(s, events[0]);
      AcceptedGrows(s, events[0]);
      NothingSpawnedUnaccepted(s', events[1..], ids);
      NothingSpawnedAt(s, events[0], ids);
      assert s.accepted <= s'.accepted <= Exec(s, events).accepted;
    }
  }

  lemma NothingSpawnedAt(s: State, e: Event, ids: seq<Id>)
    requires Inv(s) && Enabled(s, e)
    ensures (forall id :: id in ids ==> id !in s.accepted) ==> SpawnedBy(s, e, ids) == []
  {
    if Spawns(s, e) {
      SpawnedIsAccepted(s, e);
    }
  }

  /**
   In every run from the empty manager, the jobs of an accepted chain are spawned in the order in which
   they were queued, starting with the root, none is left out on the way, and each at most once.
   */
  lemma ChainsRunInOrder(before: seq<Event>, job: Job, after: seq<Event>)
    requires CanRun(INITIAL, before) && Enabled(Exec(INITIAL, before), IngestCheck(job))
    requires job.hash !in Exec(INITIAL, before).hashes
    requires CanRun(Next(Exec(INITIAL, before), IngestCheck(job)), after)
    ensures SpawnedIn(INITIAL, before, Line(job)) == []
    ensures SpawnedIn(Next(Exec(INITIAL, before), IngestCheck(job)), after, Line(job)) <= Line(job)
    ensures forall i, j :: 0 <= i < j < |Line(job)| ==> Line(job)[i] != Line(job)[j]
  {
    var s := Exec(INITIAL, before);
    InitialInv();
    InvHolds(INITIAL, before);
    FreshLine(s, job);
    hide Inv, InLine, Next;
    NothingSpawnedUnaccepted(INITIAL, before, Line(job));
    StartsLine(s, job);
    InvKept(s, IngestCheck(job));
    RunKeepsLine(Next(s, IngestCheck(job)), after, job.id, Line(job), 0);
  }

  /* ----- first come, first served ----- */

  /** The jobs that a run takes from the mailbox, in order. */
  ghost function TakenBy(s: State, e: Event): seq<Job>
    requires Enabled(s, e)
  {
    if e.AcquireForMailbox? then [Next(s, e).lock.job] else []
  }

  /** The jobs that a completion posts: its own next job, or one from the queue. */
  ghost function PostedBy(s: State, e: Event): seq<Job>
    requires Enabled(s, e)
  {
    if !e.Advance? then [] else if s.tasks[e.at].stage.next.Some? then [s.tasks[e.at].stage.next.value] else DequeuedBy(s, e)
  }

  ghost function DequeuedBy(s: State, e: Event): seq<Job>
    requires Enabled(s, e)
  {
    if e.Advance? && s.tasks[e.at].stage.next.None? && s.queue != [] then [s.queue[0]] else []
  }

  ghost function EnqueuedBy(s: State, e: Event): seq<Job>
    requires Enabled(s, e)
  {
    if e.Decide? && |s.workers| >= MAX_WORKERS then [s.lock.job] else []
  }

  datatype Traffic = Traffic(taken: seq<Job>, posted: seq<Job>, dequeued: seq<Job>, enqueued: seq<Job>)

  ghost function TrafficOf(s: State, events: seq<Event>): Traffic
    requires CanRun(s, events)
    decreases |events|
  {
    if events == [] then Traffic([], [], [], [])
    else
      var e, rest := events[0], TrafficOf(Next(s, events[0]), events[1..]);
      Traffic(TakenBy(s, e) + rest.taken, PostedBy(s, e) + rest.posted, DequeuedBy(s, e) + rest.dequeued, EnqueuedBy(s, e) + rest.enqueued)
  }

  lemma StepIsFifo(s: State, e: Event)
    requires Enabled(s, e)
    ensures s.mailbox + PostedBy(s, e) == TakenBy(s, e) + Next(s, e).mailbox
    ensures s.queue + EnqueuedBy(s, e) == DequeuedBy(s, e) + Next(s, e).queue
  {
    hide FreshJob, JobIds, RestIds;
    if e.AcquireForMailbox? {
      assert s.mailbox == [s.mailbox[0]] + s.mailbox[1..];
    } else if e.Advance? && s.queue != [] {
      assert s.queue == [s.queue[0]] + s.queue[1..];
    }
  }

  /** Through any run the mailbox and the queue give their jobs out in the order they got them. */
  lemma {:induction false} WaitingIsFifo(s: State, events: seq<Event>)
    requires CanRun(s, events)
    ensures var t, r := TrafficOf(s, events), Exec(s, events);
            s.mailbox + t.posted == t.taken + r.mailbox && s.queue + t.enqueued == t.dequeued + r.queue
    decreases |events|
  {
    if events != [] {
      var e, s' := events[0], Next(s, events[0]);
      StepIsFifo(s, e);
      hide Next, Enabled, TakenBy, PostedBy, DequeuedBy, EnqueuedBy;
      WaitingIsFifo(s', events[1..]);
      var t, r := TrafficOf(s', events[1..]), Exec(s', events[1..]);
      Chained(s.mailbox, PostedBy(s, e), TakenBy(s, e), s'.mailbox, t.posted, t.taken, r.mailbox);
      Chained(s.queue, EnqueuedBy(s, e), DequeuedBy(s, e), s'.queue, t.enqueued, t.dequeued, r.queue);
    }
  }

  lemma Chained(a: seq<Job>, put: seq<Job>, got: seq<Job>, b: seq<Job>, puts: seq<Job>, gots: seq<Job>, c: seq<Job>)
    requires a + put == got + b && b + puts == gots + c
    ensures a + (put + puts) == got + gots + c
  {
    assert a + (put + puts) == (a + put) + puts == (got + b) + puts == got + (b + puts) == got + (gots + c);
  }
}
