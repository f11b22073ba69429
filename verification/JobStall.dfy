/** How a queue is stranded: five failed spawns use up the completions that would have emptied it. */
module JobStall {
  import opened Outcomes
  import opened JobManager
  import opened JobHashes
  import opened JobTraces

  function Lone(id: Id): Job {
    Job(id, id, None, [])
  }

  /** The jobs numbered from `from` up to `n`, in order. */
  function Lones(from: nat, n: nat): (r: seq<Job>)
    requires from <= n
    ensures |r| == n - from && forall i :: 0 <= i < |r| ==> r[i] == Lone(from + i)
  {
    seq(n - from, i requires 0 <= i => Lone(from + i))
  }

  function Workings(from: nat, n: nat): (r: seq<Task>)
    requires from <= n
    ensures |r| == n - from && forall i :: 0 <= i < |r| ==> r[i] == Task(from + i, Lone(from + i), Working)
  {
    seq(n - from, i requires 0 <= i => Task(from + i, Lone(from + i), Working))
  }

  function Range(from: nat, n: nat): (r: set<Id>)
    ensures forall id :: id in r <==> from <= id < n
    decreases n
  {
    if n <= from then {} else Range(from, n - 1) + {n - 1}
  }

  lemma {:induction false} RangeSize(from: nat, n: nat)
    requires from <= n
    ensures |Range(from, n)| == n - from
    decreases n
  {
    if from < n {
      RangeSize(from, n - 1);
    }
  }

  /** Nobody holds the lock, calls or posts. */
  ghost predicate Calm(s: State) {
    s.lock == Free && s.ingests == [] && s.mailbox == []
  }

  function Slots(n: nat): nat {
    if n < MAX_WORKERS then n else MAX_WORKERS
  }

  /** After `n` ingested jobs: the first five run, the others wait. */
  ghost predicate Filled(s: State, n: nat) {
    && Calm(s) && s.failures == 0 && s.hashes == Range(0, n) && s.accepted == Range(0, n)
    && s.tasks == Workings(0, Slots(n)) && s.workers == Range(0, Slots(n)) && s.queue == Lones(Slots(n), n)
  }

  lemma ListsGrow(from: nat, n: nat)
    requires from <= n
    ensures Lones(from, n + 1) == Lones(from, n) + [Lone(n)]
    ensures Workings(from, n + 1) == Workings(from, n) + [Task(n, Lone(n), Working)]
    ensures Range(from, n + 1) == Range(from, n) + {n}
  {
  }

  lemma ListsShrink(from: nat, n: nat)
    requires from < n
    ensures Lones(from, n) == [Lone(from)] + Lones(from + 1, n)
    ensures Workings(from, n) == [Task(from, Lone(from), Working)] + Workings(from + 1, n)
    ensures Range(from + 1, n) == Range(from, n) - {from}
  {
  }

  lemma FilledNext(s: State, s': State, n: nat)
    requires Filled(s, n)
    requires s' == if n >= MAX_WORKERS then s.(hashes := s.hashes + {n}, accepted := s.accepted + {n}, queue := s.queue + [Lone(n)])
                   else s.(hashes := s.hashes + {n}, accepted := s.accepted + {n}, workers := s.workers + {n},
                           tasks := s.tasks + [Task(n, Lone(n), Working)])
    ensures Filled(s', n + 1)
  {
    ListsGrow(0, n);
    ListsGrow(Slots(n), n);
    hide Lones, Workings, Range;
    if n < MAX_WORKERS {
      NoLones(n);
      NoLones(n + 1);
    }
  }

  lemma NoLones(n: nat)
    ensures Lones(n, n) == []
  {
  }

  lemma IngestOne(events: seq<Event>, s: State, n: nat) returns (events': seq<Event>, s': State)
    requires Reaches(events, s) && Filled(s, n)
    ensures Reaches(events', s') && Filled(s', n + 1)
  {
    LoneJobIsFresh(s, Lone(n));
    RangeSize(0, Slots(n));
    assert n !in Range(0, n);
    hide Reaches, FreshJob, IdSet, Lones, Workings, Range;
    events', s' := Admit(events, s, Lone(n));
    events', s' := Settle(events', s', Lone(n));
    FilledNext(s, s', n);
  }

  /** Of eleven jobs, the first `k` have finished, and as many spawns have failed. */
  ghost predicate Failed(s: State, k: nat)
    requires k <= MAX_WORKERS
  {
    && Calm(s) && s.failures == k
    && s.tasks == Workings(k, MAX_WORKERS) && s.workers == Range(k, MAX_WORKERS) && s.queue == Lones(MAX_WORKERS + k, 11)
  }

  /** It posts the head of the queue, and the spawn of that job fails. */
  lemma PostAndFail(events: seq<Event>, s: State, id: Id, rest: seq<Task>) returns (events': seq<Event>, s': State)
    requires Reaches(events, s) && Calm(s) && s.tasks == [Task(id, Lone(id), Advancing(None))] + rest
    requires s.queue != [] && |s.workers| < MAX_WORKERS
    ensures Reaches(events', s')
    ensures s' == s.(tasks := rest, queue := s.queue[1..], failures := s.failures + 1, unspawned := s'.unspawned, leaked := s'.leaked)
  {
    hide Reaches, FreshJob, JobIds;
    events', s' := Go(events, s, Advance(0));
    assert s'.tasks == rest && s'.mailbox == [s.queue[0]];
    events', s' := Go(events', s', AcquireForMailbox);
    assert s'.mailbox == [];
    events', s' := Go(events', s', Decide(false));
  }

  lemma FailOne(events: seq<Event>, s: State, k: nat) returns (events': seq<Event>, s': State)
    requires k < MAX_WORKERS && Reaches(events, s) && Failed(s, k)
    ensures Reaches(events', s') && Failed(s', k + 1)
  {
    RangeSize(k + 1, MAX_WORKERS);
    ListsShrink(k, MAX_WORKERS);
    ListsShrink(MAX_WORKERS + k, 11);
    hide Reaches, Lones, Workings, Range, RestIds;
    var rest := Workings(k + 1, MAX_WORKERS);
    assert s.queue[1..] == Lones(MAX_WORKERS + k + 1, 11);
    events', s' := Leave(events, s, Task(k, Lone(k), Working), Completed, rest);
    assert NextJob(Lone(k)) == None && s'.workers == Range(k + 1, MAX_WORKERS);
    hide NextJob, Lone;
    events', s' := PostAndFail(events', s', k, rest);
  }

  lemma Starts()
    ensures Reaches([], INITIAL) && Filled(INITIAL, 0)
  {
    assert Range(0, 0) == {};
  }

  lemma {:induction false} Fill(n: nat) returns (events: seq<Event>, s: State)
    ensures Reaches(events, s) && Filled(s, n)
  {
    Starts();
    events, s := [], INITIAL;
    hide Reaches, Filled;
    for i := 0 to n
      invariant Reaches(events, s) && Filled(s, i)
    {
      events, s := IngestOne(events, s, i);
    }
  }

  lemma StrandedIsQuiet(s: State)
    requires Failed(s, MAX_WORKERS)
    ensures Quiet(s) && s.queue != [] && s.workers == {} && s.failures == MAX_WORKERS
  {
    hide FreshJob;
    assert s.tasks == [] && |s.queue| == 1;
  }

  /** A run that cannot go on and leaves a job waiting, with the pool empty and exactly five failed spawns. */
  lemma FiveFailuresStrandTheQueue() returns (events: seq<Event>, s: State)
    ensures CanRun(INITIAL, events) && Exec(INITIAL, events) == s
    ensures Quiet(s) && s.queue != [] && s.workers == {} && s.failures == 5
  {
    events, s := Fill(11);
    assert Failed(s, 0);
    assert Reaches(events, s);
    hide Quiet, Failed, CanRun, Exec, Filled;
    for k := 0 to MAX_WORKERS
      invariant Reaches(events, s) && Failed(s, k)
    {
      hide Reaches;
      events, s := FailOne(events, s, k);
    }
    StrandedIsQuiet(s);
  }
}
