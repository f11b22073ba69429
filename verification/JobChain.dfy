/**
 The rows of one chain built by `queue_next`, through a session: a root job, its children in order, and
 the worker that runs them one after the other. Database writes succeed here.
 */
module JobChain {
  import opened Outcomes
  import opened JobWorker
  import Run = JobRun

  datatype Stage =
    | Waiting
    | Live
    | Complete                    // the whole chain has completed
    | Stopped(status: JobStatus)  // the current job has ended otherwise
    | Dropped                     // the next job was not offered
    | Crashed                     // the result of the current job was never processed
    | Unspawned                   // a write failed while spawning

  /** There is a job whose turn it is. */
  predicate Going(c: Chain) {
    c.stage == Waiting || c.stage == Live
  }

  function StatusFor(result: JobResult): JobStatus
    requires !result.Success?
  {
    if result.PausedWith? then Paused else if result.CanceledWith? then Canceled else Failed
  }

  function TailStatus(status: JobStatus): JobStatus {
    if status == Paused then Paused else Canceled
  }

  /** `done` have completed, `current` waits or runs, `rest` come after it. `started` is history. */
  datatype Chain = Chain(store: Store, done: seq<nat>, current: Option<Child>, rest: seq<Child>, stage: Stage, started: seq<nat>)

  datatype Event =
    | Enqueue                            // `dispatch` finds no free slot
    | Spawn                              // `dispatch` spawns the worker
    | End(result: JobResult)             // the job's result is processed
    | EndLate(errors: seq<string>)       // it completed while its timeout fired: the next job is dropped
    | Crash                              // the worker's task could not be joined

  ghost predicate Enabled(c: Chain, e: Event) {
    match e
    case Enqueue => c.stage == Waiting
    case Spawn => c.stage == Waiting
    case _ => c.stage == Live
  }

  ghost function Next(codec: Codec, c: Chain, e: Event): Chain
    requires Enabled(c, e) && (Going(c) ==> c.current.Some?)
  {
    var job := c.current.value;
    match e
    case Enqueue =>
      var (s, report, _) := Create(c.store, job.report);
      c.(store := s, current := Some(job.(report := report)))
    case Spawn =>
      var w := SpawnWorker(c.store, job.report, c.rest);
      c.(store := w.store, current := Some(job.(report := w.report)), rest := w.children,
         stage := if w.ok then Live else Unspawned, started := c.started + if w.ok then [job.report.id] else [])
    case End(result) =>
      var p := Process(codec, c.store, job.report, c.rest, result);
      if p.goesOn then
        Chain(p.store, c.done + [job.report.id], Some(c.rest[0]), c.rest[1..], Waiting, c.started)
      else if result.Success? then
        Chain(p.store, c.done + [job.report.id], None, [], Complete, c.started)
      else
        c.(store := p.store, current := Some(job.(report := p.report)), rest := p.children, stage := Stopped(StatusFor(result)))
    case EndLate(errors) =>
      var p := Process(codec, c.store, job.report, c.rest, Success(errors));
      Chain(p.store, c.done + [job.report.id], None, c.rest, Dropped, c.started)
    case Crash => c.(stage := Crashed)
  }

  /* ----- the shape of the statuses ----- */

  ghost predicate Is(s: Store, id: nat, status: JobStatus) {
    id in s.rows && s.rows[id].status == status
  }

  ghost predicate AllAre(s: Store, children: seq<Child>, status: JobStatus) {
    forall i :: 0 <= i < |children| ==> Is(s, children[i].report.id, status)
  }

  /** Children marked as far as their states can be encoded, and queued from the first that cannot. */
  ghost predicate TailIs(codec: Codec, s: Store, children: seq<Child>, status: JobStatus) {
    forall i :: 0 <= i < |children| ==> Is(s, children[i].report.id, if Encodes(codec, children, i + 1) then status else Queued)
  }

  /** Not started: queued, or not written yet while the root itself waits. */
  ghost predicate Unstarted(s: Store, child: Child) {
    && child.report.status == Queued
    && (child.report.created <==> child.report.id in s.rows)
    && (child.report.id in s.rows ==> s.rows[child.report.id].status == Queued)
  }

  /**
   A prefix of completed jobs, at most one current job, and a uniform tail: unstarted behind a waiting
   job, queued behind a running one, and marked with the job that was stopped, up to the first job whose
   state cannot be encoded. The tail stays queued where the chain was dropped, and the job stays running
   where it crashed. Jobs have started in order, each once.
   */
  ghost predicate Shape(codec: Codec, c: Chain) {
    && (forall i :: 0 <= i < |c.done| ==> Is(c.store, c.done[i], Completed) || Is(c.store, c.done[i], CompletedWithErrors))
    && (c.current.Some? <==> Going(c) || c.stage.Stopped? || c.stage == Crashed) && c.stage != Unspawned
    && c.started == c.done + (if c.current.Some? && c.stage != Waiting then [c.current.value.report.id] else [])
    && (Going(c) ==> forall i :: 0 <= i < |c.rest| ==> Unstarted(c.store, c.rest[i]))
    && (c.stage == Waiting ==>
          && Unstarted(c.store, c.current.value)
          && (c.done != [] ==> Is(c.store, c.current.value.report.id, Queued) && AllAre(c.store, c.rest, Queued)))
    && (c.stage == Live || c.stage == Crashed ==>
          Is(c.store, c.current.value.report.id, Running) && AllAre(c.store, c.rest, Queued))
    && (c.stage == Complete ==> c.rest == [])
    && (c.stage == Dropped ==> AllAre(c.store, c.rest, Queued))
    && (c.stage.Stopped? ==>
          && (c.stage.status == Paused || c.stage.status == Canceled || c.stage.status == Failed)
          && Is(c.store, c.current.value.report.id, c.stage.status) && TailIs(codec, c.store, c.rest, TailStatus(c.stage.status)))
  }

  ghost function Current(c: Chain): seq<nat> {
    match c.current case Some(job) => [job.report.id] case None => []
  }

  ghost function AllIds(c: Chain): seq<nat> {
    c.done + Current(c) + Ids(c.rest)
  }

  /** Identities and links that `queue_next` set up and that no event changes. */
  ghost predicate Linked(c: Chain, root: nat) {
    && c.store.faults == []
    && Distinct(AllIds(c))
    && AllIds(c) != [] && AllIds(c)[0] == root
    && (c.done == [] ==> c.current.Some? && c.current.value.report.id == root && c.current.value.report.parentId == None)
    && (forall i :: 0 <= i < |c.rest| ==> c.rest[i].report.parentId == Some(root))
    && (c.done != [] || c.stage != Waiting ==> root in c.store.rows)
    && (Going(c) && c.current.Some? ==>
          (c.current.value.report.created <==> c.current.value.report.id in c.store.rows))
  }

  ghost predicate Inv(codec: Codec, c: Chain, root: nat) {
    Shape(codec, c) && Linked(c, root)
  }

  /* ----- registering the children ----- */

  lemma HeadAndTail(children: seq<Child>)
    requires children != []
    ensures Ids(children) == [children[0].report.id] + Ids(children[1..])
    ensures Distinct(Ids(children)) ==> children[0].report.id !in Ids(children[1..]) && Distinct(Ids(children[1..]))
  {
    var ids, rest := Ids(children), children[1..];
    assert forall j :: 0 <= j < |rest| ==> Ids(rest)[j] == ids[j + 1];
  }

  lemma {:induction false} RegisterFrame(s: Store, children: seq<Child>, id: nat)
    requires id !in Ids(children)
    ensures var rows := RegisterChildren(s, children).store.rows;
            (id in rows <==> id in s.rows) && (id in s.rows ==> rows[id] == s.rows[id])
    decreases |children|
  {
    if children != [] {
      HeadAndTail(children);
      RegisterFrame(if children[0].report.created then s else Create(s, children[0].report).0, children[1..], id);
    }
  }

  lemma {:induction false} RegisterQueues(s: Store, children: seq<Child>, root: nat)
    requires s.faults == [] && root in s.rows && Distinct(Ids(children))
    requires forall i :: 0 <= i < |children| ==> Unstarted(s, children[i]) && children[i].report.parentId == Some(root)
    ensures var r := RegisterChildren(s, children);
            && r.ok && r.store.faults == []
            && (forall i :: 0 <= i < |children| ==>
                  r.children[i] == children[i].(report := children[i].report.(created := true)))
            && AllAre(r.store, children, Queued)
    decreases |children|
  {
    if children != [] {
      var rest := children[1..];
      HeadAndTail(children);
      hide Distinct;
      assert Unstarted(s, children[0]);
      var s' := if children[0].report.created then s else Create(s, children[0].report).0;
      forall j | 0 <= j < |rest| ensures Unstarted(s', rest[j]) && rest[j].report.parentId == Some(root) {
        assert rest[j] == children[j + 1] && Ids(rest)[j] != children[0].report.id;
      }
      RegisterQueues(s', rest, root);
      RegisterFrame(s', rest, children[0].report.id);
      var r := RegisterChildren(s, children);
      forall i | 0 <= i < |children|
        ensures r.children[i] == children[i].(report := children[i].report.(created := true))
        ensures Is(r.store, children[i].report.id, Queued)
      {
        if i > 0 {
          assert children[i] == rest[i - 1];
        }
      }
    }
  }

  /* ----- each event keeps the shape ----- */

  lemma DistinctParts(a: seq<nat>, id: nat, b: seq<nat>)
    requires Distinct(a + [id] + b)
    ensures id !in a && id !in b && Distinct(a) && Distinct(b)
    ensures forall i :: 0 <= i < |a| ==> a[i] !in b
  {
    var all, n := a + [id] + b, |a|;
    assert all[n] == id;
    forall i | 0 <= i < n ensures a[i] != id && a[i] !in b {
      assert all[i] == a[i];
      forall j | 0 <= j < |b| ensures b[j] != a[i] {
        assert all[n + 1 + j] == b[j];
      }
    }
    forall j | 0 <= j < |b| ensures b[j] != id {
      assert all[n + 1 + j] == b[j];
    }
    assert forall i, j :: 0 <= i < j < n ==> all[i] == a[i] && all[j] == a[j];
    forall i, j | 0 <= i < j < |b| ensures b[i] != b[j] {
      assert all[n + 1 + i] == b[i] && all[n + 1 + j] == b[j];
    }
  }

  lemma Separate(c: Chain)
    requires Distinct(AllIds(c)) && c.current.Some?
    ensures var id := c.current.value.report.id;
            && id !in c.done && id !in Ids(c.rest) && Distinct(Ids(c.rest)) && Distinct(c.done)
            && (forall i :: 0 <= i < |c.done| ==> c.done[i] !in Ids(c.rest))
  {
    DistinctParts(c.done, c.current.value.report.id, Ids(c.rest));
  }

  lemma EnqueueKeeps(codec: Codec, c: Chain, root: nat)
    requires Inv(codec, c, root) && Enabled(c, Enqueue)
    ensures Inv(codec, Next(codec, c, Enqueue), root) && AllIds(Next(codec, c, Enqueue)) == AllIds(c)
  {
    Separate(c);
    var c' := Next(codec, c, Enqueue);
    var id := c.current.value.report.id;
    forall i | 0 <= i < |c.rest| ensures Unstarted(c'.store, c'.rest[i]) {
      assert Ids(c.rest)[i] != id;
    }
    assert AllIds(c') == AllIds(c);
  }

  /** What spawning the current job's worker does: its row is running, the missing rows are there, the others stay. */
  ghost predicate Spawned(c: Chain, c': Chain)
    requires c.current.Some?
  {
    var report := c.current.value.report.(status := Running, created := true);
    && c'.done == c.done && c'.stage == Live && c'.started == c.started + [report.id]
    && c'.current == Some(c.current.value.(report := report))
    && c'.store.faults == [] && Is(c'.store, report.id, Running)
    && |c'.rest| == |c.rest| && AllAre(c'.store, c.rest, Queued)
    && (forall i :: 0 <= i < |c.rest| ==> c'.rest[i] == c.rest[i].(report := c.rest[i].report.(created := true)))
    && (forall id :: id in c.store.rows && id != report.id && id !in Ids(c.rest) ==> id in c'.store.rows && c'.store.rows[id] == c.store.rows[id])
  }

  lemma RegisterKeepsOthers(s: Store, children: seq<Child>)
    ensures var rows := RegisterChildren(s, children).store.rows;
            forall id :: id in s.rows && id !in Ids(children) ==> id in rows && rows[id] == s.rows[id]
  {
    hide RegisterChildren, Ids;
    forall id | id in s.rows && id !in Ids(children)
      ensures id in RegisterChildren(s, children).store.rows && RegisterChildren(s, children).store.rows[id] == s.rows[id]
    {
      RegisterFrame(s, children, id);
    }
  }

  /** The store once the current job's own row is written. */
  function OwnRow(c: Chain): Store
    requires c.current.Some?
  {
    var running := c.current.value.report.(status := Running);
    if running.created then Update(c.store, running).0 else Create(c.store, running).0
  }

  lemma OwnRowIsRunning(codec: Codec, c: Chain, root: nat)
    requires Inv(codec, c, root) && Enabled(c, Spawn)
    ensures var s, id := OwnRow(c), c.current.value.report.id;
            && s.faults == [] && root in s.rows && Is(s, id, Running) && id !in Ids(c.rest) && Distinct(Ids(c.rest))
            && (forall i :: 0 <= i < |c.rest| ==> Unstarted(s, c.rest[i]) && c.rest[i].report.parentId == Some(root))
            && (forall x :: x in c.store.rows && x != id ==> x in s.rows && s.rows[x] == c.store.rows[x])
  {
    Separate(c);
    assert AllIds(c)[0] == root;
    forall i | 0 <= i < |c.rest| ensures Unstarted(OwnRow(c), c.rest[i]) {
      assert Ids(c.rest)[i] != c.current.value.report.id;
    }
  }

  lemma SpawnRows(codec: Codec, c: Chain, root: nat)
    requires Inv(codec, c, root) && Enabled(c, Spawn)
    ensures Spawned(c, Next(codec, c, Spawn))
  {
    var s := OwnRow(c);
    OwnRowIsRunning(codec, c, root);
    RegisterQueues(s, c.rest, root);
    RegisterKeepsOthers(s, c.rest);
    RegisterFrame(s, c.rest, c.current.value.report.id);
    hide RegisterChildren, AllIds, Ids, Unstarted, Distinct;
  }

  lemma SpawnKeeps(codec: Codec, c: Chain, root: nat)
    requires Inv(codec, c, root) && Enabled(c, Spawn)
    ensures Inv(codec, Next(codec, c, Spawn), root) && AllIds(Next(codec, c, Spawn)) == AllIds(c)
  {
    Separate(c);
    SpawnRows(codec, c, root);
    var c' := Next(codec, c, Spawn);
    hide Next;
    assert Ids(c'.rest) == Ids(c.rest);
    assert AllIds(c') == AllIds(c) && AllIds(c)[0] == root;
    SpawnedShape(codec, c, c', root);
  }

  lemma SpawnedShape(codec: Codec, c: Chain, c': Chain, root: nat)
    requires Inv(codec, c, root) && c.stage == Waiting && Spawned(c, c')
    ensures Shape(codec, c')
  {
    Separate(c);
    forall i | 0 <= i < |c.done| ensures Is(c'.store, c'.done[i], Completed) || Is(c'.store, c'.done[i], CompletedWithErrors) {
      assert c.done[i] != c.current.value.report.id && c.done[i] !in Ids(c.rest);
      assert c.done[i] in c.store.rows;
    }
    hide Linked, Ids;
    assert AllAre(c'.store, c'.rest, Queued);
  }

  /** One successful update: the job's row is completed, the others stay. */
  lemma SuccessRows(codec: Codec, c: Chain, root: nat, errors: seq<string>)
    requires Inv(codec, c, root) && c.stage == Live
    ensures var s := Process(codec, c.store, c.current.value.report, c.rest, Success(errors)).store;
            && s.faults == [] && s.rows.Keys == c.store.rows.Keys
            && Is(s, c.current.value.report.id, if errors == [] then Completed else CompletedWithErrors)
            && forall id :: id in s.rows && id != c.current.value.report.id ==> s.rows[id] == c.store.rows[id]
  {
  }

  /** What is true of the rows right after a success, whatever comes next. */
  lemma RowsAfterSuccess(codec: Codec, c: Chain, root: nat, errors: seq<string>)
    requires Inv(codec, c, root) && c.stage == Live
    ensures var s := Process(codec, c.store, c.current.value.report, c.rest, Success(errors)).store;
            var done := c.done + [c.current.value.report.id];
            && s.faults == [] && s.rows.Keys == c.store.rows.Keys
            && AllAre(s, c.rest, Queued)
            && (forall i :: 0 <= i < |c.rest| ==> Unstarted(s, c.rest[i]))
            && (forall i :: 0 <= i < |done| ==> Is(s, done[i], Completed) || Is(s, done[i], CompletedWithErrors))
  {
    Separate(c);
    SuccessRows(codec, c, root, errors);
    hide Process, Linked, AllIds;
    var s := Process(codec, c.store, c.current.value.report, c.rest, Success(errors)).store;
    var id := c.current.value.report.id;
    forall i | 0 <= i < |c.rest| ensures Is(s, c.rest[i].report.id, Queued) && Unstarted(s, c.rest[i]) {
      assert Ids(c.rest)[i] != id;
    }
    forall i | 0 <= i < |c.done| ensures Is(s, c.done[i], Completed) || Is(s, c.done[i], CompletedWithErrors) {
      assert c.done[i] != id;
    }
  }

  lemma NextJobShape(codec: Codec, c: Chain, s: Store)
    requires Shape(codec, c) && c.stage == Live && c.rest != []
    requires AllAre(s, c.rest, Queued) && forall i :: 0 <= i < |c.rest| ==> Unstarted(s, c.rest[i])
    requires var done := c.done + [c.current.value.report.id];
             forall i :: 0 <= i < |done| ==> Is(s, done[i], Completed) || Is(s, done[i], CompletedWithErrors)
    ensures Shape(codec, Chain(s, c.done + [c.current.value.report.id], Some(c.rest[0]), c.rest[1..], Waiting, c.started))
  {
    var head, tail := c.rest[0], c.rest[1..];
    assert c.rest == [head] + tail;
    assert Is(s, head.report.id, Queued) && Unstarted(s, head);
    assert AllAre(s, tail, Queued);
    hide Is, Unstarted;
  }

  lemma NextJobIds(c: Chain, s: Store)
    requires c.current.Some? && c.rest != []
    ensures AllIds(Chain(s, c.done + [c.current.value.report.id], Some(c.rest[0]), c.rest[1..], Waiting, c.started)) == AllIds(c)
  {
    HeadAndTail(c.rest);
    var front, y, tail := c.done + [c.current.value.report.id], c.rest[0].report.id, Ids(c.rest[1..]);
    hide *;
    assert front + [y] + tail == front + ([y] + tail);
  }

  lemma NextJobWaits(codec: Codec, c: Chain, root: nat, s: Store)
    requires Inv(codec, c, root) && c.stage == Live && c.rest != []
    requires s.faults == [] && s.rows.Keys == c.store.rows.Keys && AllAre(s, c.rest, Queued)
    requires forall i :: 0 <= i < |c.rest| ==> Unstarted(s, c.rest[i])
    requires var done := c.done + [c.current.value.report.id];
             forall i :: 0 <= i < |done| ==> Is(s, done[i], Completed) || Is(s, done[i], CompletedWithErrors)
    ensures var c' := Chain(s, c.done + [c.current.value.report.id], Some(c.rest[0]), c.rest[1..], Waiting, c.started);
            Inv(codec, c', root) && AllIds(c') == AllIds(c)
  {
    NextJobIds(c, s);
    NextJobShape(codec, c, s);
    assert root in c.store.rows && Unstarted(s, c.rest[0]);
    hide Shape, AllIds, Distinct, Ids, AllAre, Is;
  }

  lemma SuccessKeeps(codec: Codec, c: Chain, root: nat, e: Event)
    requires Inv(codec, c, root) && Enabled(c, e) && ((e.End? && e.result.Success?) || e.EndLate?)
    ensures Inv(codec, Next(codec, c, e), root) && AllIds(Next(codec, c, e)) == AllIds(c)
  {
    var errors := if e.End? then e.result.errors else e.errors;
    RowsAfterSuccess(codec, c, root, errors);
    var id := c.current.value.report.id;
    var s := Process(codec, c.store, c.current.value.report, c.rest, Success(errors)).store;
    var c' := Next(codec, c, e);
    if e.End? && c.rest != [] {
      assert c' == Chain(s, c.done + [id], Some(c.rest[0]), c.rest[1..], Waiting, c.started);
      hide Process, Next, Shape, Linked, AllIds;
      NextJobWaits(codec, c, root, s);
    } else {
      assert c' == Chain(s, c.done + [id], None, c.rest, if e.End? then Complete else Dropped, c.started);
      hide Process, Next;
      assert AllIds(c') == AllIds(c);
    }
  }

  lemma RestMarkable(codec: Codec, c: Chain, root: nat, status: JobStatus)
    requires Inv(codec, c, root) && c.stage == Live && status != Queued
    ensures Markable(c.store, c.rest, status) && AllAre(c.store, c.rest, Queued) && c.store.faults == []
    ensures c.current.value.report.id !in Ids(c.rest) && c.current.value.report.id in c.store.rows
  {
    Separate(c);
  }

  lemma MarkedRows(codec: Codec, s: Store, children: seq<Child>, status: JobStatus)
    requires s.faults == [] && Markable(s, children, status) && AllAre(s, children, Queued)
    ensures var m := MarkChildren(codec, s, children, status);
            && m.store.faults == [] && m.store.rows.Keys == s.rows.Keys
            && TailIs(codec, m.store, children, status)
            && (forall x :: x in s.rows && x !in Ids(children) ==> m.store.rows[x] == s.rows[x])
  {
    MarkSavesUpToFault(codec, s, children, status);
    MarkFrame(codec, s, children, status);
    MarkedIds(codec, s, children, status);
    hide MarkChildren, Markable, Encodes;
    var m := MarkChildren(codec, s, children, status);
    forall i | 0 <= i < |children|
      ensures Is(m.store, children[i].report.id, if Encodes(codec, children, i + 1) then status else Queued)
    {
      assert MarkedTo(codec, s, m.store, children, status, i);
    }
  }

  /** The job and its children are marked, the other rows stay. */
  lemma StopStore(codec: Codec, s: Store, report: Report, children: seq<Child>, result: JobResult)
    requires !result.Success? && s.faults == [] && report.id in s.rows && report.id !in Ids(children)
    requires Markable(s, children, TailStatus(StatusFor(result))) && AllAre(s, children, Queued)
    ensures var p := Process(codec, s, report, children, result);
            && p.store.faults == [] && p.store.rows.Keys == s.rows.Keys
            && p.report.id == report.id && p.report.parentId == report.parentId
            && Is(p.store, report.id, StatusFor(result))
            && TailIs(codec, p.store, children, TailStatus(StatusFor(result)))
            && (forall x :: x in p.store.rows && x != report.id && x !in Ids(children) ==> p.store.rows[x] == s.rows[x])
            && Ids(p.children) == Ids(children)
            && (forall i :: 0 <= i < |children| ==>
                  p.children[i].report.parentId == children[i].report.parentId && p.children[i].state == children[i].state)
  {
    var status := TailStatus(StatusFor(result));
    MarkedIds(codec, s, children, status);
    MarkedRows(codec, s, children, status);
    hide Markable, MarkChildren, Encodes;
    var p := Process(codec, s, report, children, result);
    forall i | 0 <= i < |children|
      ensures Is(p.store, children[i].report.id, if Encodes(codec, children, i + 1) then status else Queued)
    {
      assert Ids(children)[i] != report.id;
    }
  }

  lemma StopInv(codec: Codec, c: Chain, root: nat, e: Event)
    requires Inv(codec, c, root) && Enabled(c, e) && e.End? && !e.result.Success?
    ensures Inv(codec, Next(codec, c, e), root) && AllIds(Next(codec, c, e)) == AllIds(c)
  {
    Separate(c);
    RestMarkable(codec, c, root, TailStatus(StatusFor(e.result)));
    StopStore(codec, c.store, c.current.value.report, c.rest, e.result);
    var c' := Next(codec, c, e);
    hide Process, Markable;
    forall i | 0 <= i < |c'.rest| ensures c'.rest[i].report.id == c.rest[i].report.id {
      assert Ids(c'.rest)[i] == Ids(c.rest)[i];
    }
    assert AllIds(c') == AllIds(c);
    StopShape(codec, c, root, e);
    hide Shape;
  }

  /** What ending the current job otherwise does to the rows of the chain. */
  ghost predicate StopsAs(codec: Codec, c: Chain, c': Chain, status: JobStatus)
    requires c.current.Some?
  {
    && c'.done == c.done && c'.started == c.started
    && Is(c'.store, c.current.value.report.id, status) && TailIs(codec, c'.store, c.rest, TailStatus(status))
    && forall i :: 0 <= i < |c.done| ==>
         c.done[i] in c.store.rows && c.done[i] in c'.store.rows && c'.store.rows[c.done[i]] == c.store.rows[c.done[i]]
  }

  lemma StopEffects(codec: Codec, c: Chain, root: nat, e: Event)
    requires Inv(codec, c, root) && Enabled(c, e) && e.End? && !e.result.Success?
    ensures StopsAs(codec, c, Next(codec, c, e), StatusFor(e.result))
  {
    Separate(c);
    RestMarkable(codec, c, root, TailStatus(StatusFor(e.result)));
    StopStore(codec, c.store, c.current.value.report, c.rest, e.result);
    hide Process, Markable, Linked, AllIds;
    forall i | 0 <= i < |c.done| ensures c.done[i] in c.store.rows && c.done[i] != c.current.value.report.id && c.done[i] !in Ids(c.rest) {
      assert Is(c.store, c.done[i], Completed) || Is(c.store, c.done[i], CompletedWithErrors);
    }
  }

  /**
   A job that is paused, canceled or fails gets that status, and its tail the matching one, up to the
   first job whose state cannot be encoded; the jobs before it and the identities stay.
   */
  lemma StopKeeps(codec: Codec, c: Chain, root: nat, e: Event)
    requires Inv(codec, c, root) && Enabled(c, e) && e.End? && !e.result.Success?
    ensures var c' := Next(codec, c, e);
            Inv(codec, c', root) && AllIds(c') == AllIds(c) && StopsAs(codec, c, c', StatusFor(e.result))
  {
    StopInv(codec, c, root, e);
    StopEffects(codec, c, root, e);
    hide Next, StopsAs, AllIds;
  }

  /** What ending the current job otherwise leaves of the chain itself. */
  lemma StopParts(codec: Codec, c: Chain, root: nat, e: Event)
    requires Inv(codec, c, root) && Enabled(c, e) && e.End? && !e.result.Success?
    ensures var c' := Next(codec, c, e);
            && c'.stage == Stopped(StatusFor(e.result))
            && c'.current.Some? && c'.current.value.report.id == c.current.value.report.id
            && |c'.rest| == |c.rest|
            && forall i :: 0 <= i < |c.rest| ==> c'.rest[i].report.id == c.rest[i].report.id && c'.rest[i].state == c.rest[i].state
  {
    RestMarkable(codec, c, root, TailStatus(StatusFor(e.result)));
    MarkedIds(codec, c.store, c.rest, TailStatus(StatusFor(e.result)));
    var c' := Next(codec, c, e);
    hide Shape, Linked, AllIds, MarkChildren;
    forall i | 0 <= i < |c.rest| ensures c'.rest[i].report.id == c.rest[i].report.id {
      assert Ids(c'.rest)[i] == Ids(c.rest)[i];
    }
  }

  lemma StopShape(codec: Codec, c: Chain, root: nat, e: Event)
    requires Inv(codec, c, root) && Enabled(c, e) && e.End? && !e.result.Success?
    ensures Shape(codec, Next(codec, c, e))
  {
    StopParts(codec, c, root, e);
    StopEffects(codec, c, root, e);
    hide Next, Linked, AllIds, Ids;
    var c' := Next(codec, c, e);
    forall i | 0 <= i < |c.rest|
      ensures Is(c'.store, c'.rest[i].report.id, if Encodes(codec, c'.rest, i + 1) then TailStatus(StatusFor(e.result)) else Queued)
    {
      assert Encodes(codec, c'.rest, i + 1) <==> Encodes(codec, c.rest, i + 1);
    }
  }

  lemma {:induction false} MarkedIds(codec: Codec, s: Store, children: seq<Child>, status: JobStatus)
    requires s.faults == []
    ensures var r := MarkChildren(codec, s, children, status);
            && Ids(r.children) == Ids(children) && r.store.faults == []
            && forall i :: 0 <= i < |children| ==>
                 r.children[i].report.parentId == children[i].report.parentId && r.children[i].state == children[i].state
    decreases |children|
  {
    if children != [] {
      var s' := Update(s, Marked(codec, children[0], status).report).0;
      MarkedIds(codec, s', children[1..], status);
      var r := MarkChildren(codec, s, children, status);
      forall i | 0 <= i < |children|
        ensures r.children[i].report.id == children[i].report.id
        ensures r.children[i].report.parentId == children[i].report.parentId && r.children[i].state == children[i].state
      {
        if i > 0 {
          assert Ids(MarkChildren(codec, s', children[1..], status).children)[i - 1] == Ids(children[1..])[i - 1];
        }
      }
    }
  }

  lemma EventKeeps(codec: Codec, c: Chain, root: nat, e: Event)
    requires Inv(codec, c, root) && Enabled(c, e)
    ensures Inv(codec, Next(codec, c, e), root) && AllIds(Next(codec, c, e)) == AllIds(c)
  {
    match e
    case Enqueue => EnqueueKeeps(codec, c, root);
    case Spawn => SpawnKeeps(codec, c, root);
    case End(result) =>
      if result.Success? {
        SuccessKeeps(codec, c, root, e);
      } else {
        StopKeeps(codec, c, root, e);
      }
    case EndLate(_) => SuccessKeeps(codec, c, root, e);
    case Crash => assert AllIds(c.(stage := Crashed)) == AllIds(c);
  }

  ghost predicate CanRun(codec: Codec, c: Chain, events: seq<Event>)
    decreases |events|
  {
    events == []
    || (Enabled(c, events[0]) && (Going(c) ==> c.current.Some?) && CanRun(codec, Next(codec, c, events[0]), events[1..]))
  }

  ghost function Exec(codec: Codec, c: Chain, events: seq<Event>): Chain
    requires CanRun(codec, c, events)
    decreases |events|
  {
    if events == [] then c else Exec(codec, Next(codec, c, events[0]), events[1..])
  }

  /** A chain fresh from `queue_next`, next to rows of other jobs. */
  ghost predicate Fresh(c: Chain) {
    && c.done == [] && c.started == [] && c.stage == Waiting && c.store.faults == []
    && c.current.Some? && c.current.value.report.parentId == None
    && Distinct(AllIds(c))
    && Unborn(c, c.current.value)
    && forall i :: 0 <= i < |c.rest| ==>
         Unborn(c, c.rest[i]) && c.rest[i].report.parentId == Some(c.current.value.report.id)
  }

  ghost predicate Unborn(c: Chain, child: Child) {
    child.report.status == Queued && !child.report.created && child.report.id !in c.store.rows
  }

  function NewChild(id: nat, name: string, state: Run.JobState, parentId: Option<nat>): Child {
    Child(Report(id, name, Queued, None, [], parentId, false, false), state)
  }

  /** `Job::new`, before anything is queued behind it. */
  function NewChain(store: Store, id: nat, name: string, state: Run.JobState): Chain {
    Chain(store, [], Some(NewChild(id, name, state, None)), [], Waiting, [])
  }

  /** `queue_next`: every child gets the root as its parent, however many are queued already. */
  function QueueNext(c: Chain, id: nat, name: string, state: Run.JobState): Chain
    requires c.current.Some?
  {
    c.(rest := c.rest + [NewChild(id, name, state, Some(c.current.value.report.id))])
  }

  /** A chain is fresh however many jobs with new identifiers were queued to build it. */
  lemma QueueNextIsFresh(c: Chain, id: nat, name: string, state: Run.JobState)
    requires c.store.faults == [] && id !in c.store.rows
    ensures Fresh(NewChain(c.store, id, name, state))
    ensures Fresh(c) && id !in AllIds(c) ==>
              Fresh(QueueNext(c, id, name, state)) && AllIds(QueueNext(c, id, name, state)) == AllIds(c) + [id]
  {
    if Fresh(c) && id !in AllIds(c) {
      var c' := QueueNext(c, id, name, state);
      assert AllIds(c') == AllIds(c) + [id];
    }
  }

  /** Through any session, however its jobs are queued, run and end, the rows of a chain keep their shape. */
  lemma {:induction false} ChainKeepsShape(codec: Codec, c: Chain, events: seq<Event>)
    requires Fresh(c) && CanRun(codec, c, events)
    ensures var r := Exec(codec, c, events);
            && Shape(codec, r)
            && AllIds(r) == AllIds(c) && r.started <= AllIds(c)
  {
    var root := c.current.value.report.id;
    assert Inv(codec, c, root);
    RunKeeps(codec, c, root, events);
  }

  lemma {:induction false} RunKeeps(codec: Codec, c: Chain, root: nat, events: seq<Event>)
    requires Inv(codec, c, root) && CanRun(codec, c, events)
    ensures Inv(codec, Exec(codec, c, events), root) && AllIds(Exec(codec, c, events)) == AllIds(c)
    decreases |events|
  {
    hide Shape, Linked, Next, Enabled, AllIds;
    if events != [] {
      EventKeeps(codec, c, root, events[0]);
      RunKeeps(codec, Next(codec, c, events[0]), root, events[1..]);
    }
  }
}
