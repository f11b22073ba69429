/**
 What a worker writes: the job rows, the children of a job, `process_job_output`, and the resumption
 of the rows at the next start.

 Every database write may fail. A store carries the outcome of the writes to come (`true` is a
 failure; after the last entry every write succeeds) and a journal of what was written and answered.
 */
module JobWorker {
  import opened Outcomes
  import Run = JobRun

  /** The serialized form of a job state. */
  type Blob(==, !new)

  datatype Codec = Codec(encode: Run.JobState -> Option<Blob>, decode: Blob -> Option<Run.JobState>)

  datatype JobStatus = Queued | Running | Completed | Canceled | Failed | Paused | CompletedWithErrors

  datatype Report = Report(
    id: nat, name: string, status: JobStatus, data: Option<Blob>, errorsText: seq<string>,
    parentId: Option<nat>, created: bool, completed: bool)

  datatype Row = Row(
    name: string, status: JobStatus, data: Option<Blob>, errorsText: seq<string>, parentId: Option<nat>, completed: bool)

  datatype Entry = Wrote(id: nat) | WriteFailed(id: nat) | Replied(reply: nat)

  datatype Store = Store(rows: map<nat, Row>, faults: seq<bool>, journal: seq<Entry>)

  datatype Child = Child(report: Report, state: Run.JobState)

  /* ----- single writes ----- */

  function Refused(s: Store, id: nat): Store {
    s.(faults := Later(s.faults, 1), journal := s.journal + [WriteFailed(id)])
  }

  function Put(s: Store, id: nat, row: Row): Store {
    Store(s.rows[id := row], Later(s.faults, 1), s.journal + [Wrote(id)])
  }

  function Later(faults: seq<bool>, n: nat): seq<bool> {
    if n <= |faults| then faults[n..] else []
  }

  predicate Fails(s: Store) {
    s.faults != [] && s.faults[0]
  }

  /** `JobReport::create`: fails for an existing row, and for a parent that has none. */
  function Create(s: Store, r: Report): (Store, Report, bool) {
    if Fails(s) || r.id in s.rows || (r.parentId.Some? && r.parentId.value !in s.rows) then (Refused(s, r.id), r, false)
    else (Put(s, r.id, Row(r.name, r.status, r.data, [], r.parentId, false)), r.(created := true), true)
  }

  /** `JobReport::update`: fails for a missing row. */
  function Update(s: Store, r: Report): (Store, bool) {
    if Fails(s) || r.id !in s.rows then (Refused(s, r.id), false)
    else
      (Put(s, r.id, s.rows[r.id].(status := r.status, data := r.data, errorsText := r.errorsText, completed := r.completed)), true)
  }

  /* ----- children ----- */

  datatype Children = Children(store: Store, children: seq<Child>, ok: bool)

  /** `register_children`: creates the rows that are missing, up to the first failure. */
  function RegisterChildren(s: Store, children: seq<Child>): (r: Children)
    ensures |r.children| == |children|
    decreases |children|
  {
    if children == [] then Children(s, [], true)
    else if children[0].report.created then
      var r := RegisterChildren(s, children[1..]);
      Children(r.store, [children[0]] + r.children, r.ok)
    else
      var (s', report, ok) := Create(s, children[0].report);
      if !ok then Children(s', children, false)
      else
        var r := RegisterChildren(s', children[1..]);
        Children(r.store, [children[0].(report := report)] + r.children, r.ok)
  }

  function Marked(codec: Codec, child: Child, status: JobStatus): Child {
    child.(report := child.report.(status := status, data := codec.encode(child.state)))
  }

  /** `pause_children` and `cancel_children`: each child's row gets the status and the state, up to the first failure. */
  function MarkChildren(codec: Codec, s: Store, children: seq<Child>, status: JobStatus): (r: Children)
    ensures |r.children| == |children|
    decreases |children|
  {
    if children == [] then Children(s, [], true)
    else if codec.encode(children[0].state).None? then Children(s, children, false)
    else
      var child := Marked(codec, children[0], status);
      var (s', ok) := Update(s, child.report);
      if !ok then Children(s', [child] + children[1..], false)
      else
        var r := MarkChildren(codec, s', children[1..], status);
        Children(r.store, [child] + r.children, r.ok)
  }

  /* ----- the two ends of a worker ----- */

  datatype SpawnResult = SpawnResult(store: Store, report: Report, children: seq<Child>, ok: bool)

  /** `Worker::new`. */
  function SpawnWorker(s: Store, report: Report, children: seq<Child>): SpawnResult {
    var running := report.(status := Running);
    var (s', report', ok) :=
      if running.created then (var (u, done) := Update(s, running); (u, running, done)) else Create(s, running);
    if !ok then SpawnResult(s', report', children, false)
    else
      var r := RegisterChildren(s', children);
      SpawnResult(r.store, report', r.children, r.ok)
  }

  datatype JobResult =
    | Success(errors: seq<string>)
    | PausedWith(blob: Blob, reply: nat)
    | CanceledWith(reply: nat)
    | OtherError

  /** What `run` returns; a state that cannot be encoded turns a shutdown into an error and drops its reply channel. */
  function ResultOf(codec: Codec, outcome: Run.Outcome): JobResult {
    match outcome
    case Finished(_, _, work) => Success(work.errors)
    case Interrupted(data, work, reply) =>
      (match codec.encode(Run.Saved(data, work))
       case Some(blob) => PausedWith(blob, reply)
       case None => OtherError)
    case Canceled(reply) => CanceledWith(reply)
    case _ => OtherError
  }

  datatype Processed = Processed(store: Store, report: Report, children: seq<Child>, replies: seq<nat>, goesOn: bool)

  function Answer(s: Store, reply: nat): Store {
    s.(journal := s.journal + [Replied(reply)])
  }

  /** `process_job_output`. Failed writes are logged and otherwise ignored. */
  function Process(codec: Codec, s: Store, report: Report, children: seq<Child>, result: JobResult): Processed {
    match result
    case Success(errors) =>
      var r :=
        if errors == [] then report.(status := Completed, data := None, completed := true)
        else report.(status := CompletedWithErrors, errorsText := errors, data := None, completed := true);
      Processed(Update(s, r).0, r, children, [], children != [])
    case PausedWith(blob, reply) =>
      var marked := MarkChildren(codec, s, children, Paused);
      var r := report.(status := Paused, data := Some(blob));
      Processed(Answer(Update(marked.store, r).0, reply), r, marked.children, [reply], false)
    case CanceledWith(reply) =>
      var marked := MarkChildren(codec, s, children, Canceled);
      var r := report.(status := Canceled, data := None);
      Processed(Answer(Update(marked.store, r).0, reply), r, marked.children, [reply], false)
    case OtherError =>
      var marked := MarkChildren(codec, s, children, Canceled);
      var r := report.(status := Failed, data := None);
      Processed(Update(marked.store, r).0, r, marked.children, [], false)
  }

  /* ----- the row of the job ----- */

  /** The row of a job whose result was processed; what a result does not speak of stays as the report has it. */
  ghost predicate HoldsResult(before: Row, report: Report, result: JobResult, after: Row) {
    && after.name == before.name && after.parentId == before.parentId
    && match result
       case Success(errors) =>
         && after.status == (if errors == [] then Completed else CompletedWithErrors)
         && after.errorsText == (if errors == [] then report.errorsText else errors)
         && after.data == None && after.completed
       case PausedWith(blob, _) =>
         after.status == Paused && after.data == Some(blob) && after.errorsText == report.errorsText && after.completed == report.completed
       case CanceledWith(_) =>
         after.status == Canceled && after.data == None && after.errorsText == report.errorsText && after.completed == report.completed
       case OtherError =>
         after.status == Failed && after.data == None && after.errorsText == report.errorsText && after.completed == report.completed
  }

  /** What a processed result leaves behind, while writes succeed: the job's row, its answer, and whether the chain goes on. */
  ghost predicate ResultIsStored(s: Store, report: Report, children: seq<Child>, result: JobResult, p: Processed) {
    && report.id in s.rows && report.id in p.store.rows && p.report.id == report.id
    && HoldsResult(s.rows[report.id], report, result, p.store.rows[report.id])
    && (p.goesOn <==> result.Success? && children != [])
    && p.replies == (if result.PausedWith? || result.CanceledWith? then [result.reply] else [])
  }

  lemma ProcessStoresResult(codec: Codec, s: Store, report: Report, children: seq<Child>, result: JobResult)
    requires s.faults == [] && report.id in s.rows && report.id !in Ids(children)
    ensures ResultIsStored(s, report, children, result, Process(codec, s, report, children, result))
  {
    var status := if result.PausedWith? then Paused else Canceled;
    MarkFrame(codec, s, children, status);
    MarkNoFaults(codec, s, children, status);
    hide MarkChildren, Ids;
  }

  lemma {:induction false} MarkNoFaults(codec: Codec, s: Store, children: seq<Child>, status: JobStatus)
    requires s.faults == []
    ensures MarkChildren(codec, s, children, status).store.faults == []
    decreases |children|
  {
    if children != [] {
      MarkNoFaults(codec, Update(s, Marked(codec, children[0], status).report).0, children[1..], status);
    }
  }

  /** The row of a job once its run has ended: told by how the run ended. */
  ghost predicate HoldsOutcome(codec: Codec, before: Row, report: Report, outcome: Run.Outcome, after: Row) {
    && after.name == before.name && after.parentId == before.parentId
    && (outcome.Finished? ==>
          var errors := outcome.work.errors;
          && after.status == (if errors == [] then Completed else CompletedWithErrors) && after.completed && after.data == None
          && (errors != [] ==> after.errorsText == errors))
    && (outcome.Canceled? ==> after.status == Canceled && after.data == None)
    && (outcome.Interrupted? ==>
          var blob := codec.encode(Run.JobState(Some(outcome.data), outcome.work.steps, outcome.work.stepNumber, outcome.work.metadata));
          after.data == blob && after.status == if blob.Some? then Paused else Failed)
    && (!outcome.Finished? && !outcome.Canceled? && !outcome.Interrupted? ==> after.status == Failed && after.data == None)
  }

  /** A run's end is what its row says: the errors of a finished one, the whole state of an interrupted one. */
  lemma OutcomeIsStored(codec: Codec, s: Store, report: Report, children: seq<Child>, outcome: Run.Outcome)
    requires s.faults == [] && report.id in s.rows && report.id !in Ids(children)
    ensures var p := Process(codec, s, report, children, ResultOf(codec, outcome));
            report.id in p.store.rows && HoldsOutcome(codec, s.rows[report.id], report, outcome, p.store.rows[report.id])
  {
    ProcessStoresResult(codec, s, report, children, ResultOf(codec, outcome));
    hide Process, Ids;
  }

  /* ----- the rows that spawning writes ----- */

  /** The row of a child that had none: as its report says, queued behind its parent, without data or end. */
  ghost predicate HoldsReport(s: Store, r: Report) {
    && r.id in s.rows
    && var row := s.rows[r.id];
       row.name == r.name && row.status == r.status && row.data == r.data && row.parentId == r.parentId
       && row.errorsText == [] && !row.completed
  }

  lemma {:induction false} CreatedRowsStay(s: Store, children: seq<Child>, id: nat)
    requires id in s.rows
    ensures id in RegisterChildren(s, children).store.rows && RegisterChildren(s, children).store.rows[id] == s.rows[id]
    decreases |children|
  {
    if children != [] {
      CreatedRowsStay(if children[0].report.created then s else Create(s, children[0].report).0, children[1..], id);
    }
  }

  /** Registering writes the row of each child that had none, as its report says, or reports the failure. */
  lemma {:induction false} RegisteredRowsAreReports(s: Store, children: seq<Child>, i: nat)
    requires i < |children| && !children[i].report.created && RegisterChildren(s, children).ok
    ensures HoldsReport(RegisterChildren(s, children).store, children[i].report)
    decreases |children|
  {
    var s' := if children[0].report.created then s else Create(s, children[0].report).0;
    if i == 0 {
      CreatedRowsStay(s', children[1..], children[0].report.id);
    } else {
      RegisteredRowsAreReports(s', children[1..], i - 1);
    }
  }

  /** A spawned worker's own row is running under its name and parent, and so is every child's queued. */
  lemma SpawnedRowsAreReports(s: Store, report: Report, children: seq<Child>)
    requires SpawnWorker(s, report, children).ok
    ensures var w := SpawnWorker(s, report, children);
            && report.id in w.store.rows && w.store.rows[report.id].status == Running && w.report.status == Running
            && (!report.created ==> HoldsReport(w.store, report.(status := Running)) && w.report.created)
            && (forall i :: 0 <= i < |children| && !children[i].report.created ==> HoldsReport(w.store, children[i].report))
  {
    var running := report.(status := Running);
    var s' := if running.created then Update(s, running).0 else Create(s, running).0;
    CreatedRowsStay(s', children, report.id);
    forall i | 0 <= i < |children| && !children[i].report.created ensures HoldsReport(SpawnWorker(s, report, children).store, children[i].report) {
      RegisteredRowsAreReports(s', children, i);
    }
  }

  /* ----- one-shot replies ----- */

  /** Replies sent for a run: a timeout is answered inside the command loop, the rest by `process_job_output`. */
  function Sent(codec: Codec, s: Store, report: Report, children: seq<Child>, m: Run.Machine): seq<nat> {
    if !m.Over? then []
    else if m.outcome.TimedOut? then [m.outcome.reply]
    else Process(codec, s, report, children, ResultOf(codec, m.outcome)).replies
  }

  /**
   Every one-shot command the job received is answered exactly once, unless it is a shutdown whose
   state cannot be encoded; that one is never answered.
   */
  lemma RepliesAreSentOnce(
      codec: Codec, s: Store, report: Report, children: seq<Child>,
      job: Run.StatefulJob, state: Run.JobState, messages: seq<Run.Message>)
    requires !Run.Start(job, state).Over?
    ensures var m := Run.Drive(job, Run.Start(job, state), messages);
            var taken := Run.Taken(job, Run.Start(job, state), messages);
            var unencodable := m.Over? && m.outcome.Interrupted? && codec.encode(Run.Saved(m.outcome.data, m.outcome.work)).None?;
            Sent(codec, s, report, children, m) == (if unencodable then [] else taken)
            && (unencodable ==> |taken| == 1)
  {
    Run.ReplyIsConserved(job, Run.Start(job, state), messages);
  }

  /* ----- durable shutdown ----- */

  ghost predicate Distinct(ids: seq<nat>) {
    forall i, j :: 0 <= i < j < |ids| ==> ids[i] != ids[j]
  }

  ghost function Ids(children: seq<Child>): (ids: seq<nat>)
    ensures |ids| == |children| && forall i :: 0 <= i < |ids| ==> ids[i] == children[i].report.id
  {
    seq(|children|, i requires 0 <= i < |children| => children[i].report.id)
  }

  ghost predicate NoFault(faults: seq<bool>, n: nat) {
    forall k :: 0 <= k < n && k < |faults| ==> !faults[k]
  }

  ghost predicate Saved(s: Store, id: nat, status: JobStatus, blob: Option<Blob>) {
    id in s.rows && s.rows[id].status == status && s.rows[id].data == blob
  }

  /** Children that have rows of their own, and are not marked yet. */
  ghost predicate Markable(s: Store, children: seq<Child>, status: JobStatus) {
    && Distinct(Ids(children))
    && forall i :: 0 <= i < |children| ==>
         children[i].report.id in s.rows && s.rows[children[i].report.id].status != status
  }

  /** The states of the first `n` children can be encoded. */
  ghost predicate Encodes(codec: Codec, children: seq<Child>, n: nat) {
    forall k :: 0 <= k < n && k < |children| ==> codec.encode(children[k].state).Some?
  }

  lemma TailMarkable(codec: Codec, s: Store, children: seq<Child>, status: JobStatus)
    requires children != [] && Markable(s, children, status)
    ensures children[0].report.id !in Ids(children[1..])
    ensures var u := Update(s, Marked(codec, children[0], status).report);
            u.1 ==> Markable(u.0, children[1..], status)
  {
    var rest := children[1..];
    assert forall j :: 0 <= j < |rest| ==> rest[j] == children[j + 1] && Ids(rest)[j] == Ids(children)[j + 1];
    assert forall j :: 0 <= j < |rest| ==> Ids(rest)[j] != Ids(children)[0];
  }

  lemma {:induction false} MarkFrameAt(codec: Codec, s: Store, children: seq<Child>, status: JobStatus, id: nat)
    ensures var r := MarkChildren(codec, s, children, status).store.rows;
            && (id in r <==> id in s.rows)
            && (id in s.rows && id !in Ids(children) ==> r[id] == s.rows[id])
            && (id in s.rows ==> r[id].name == s.rows[id].name && r[id].parentId == s.rows[id].parentId)
    decreases |children|
  {
    if children != [] {
      var rest := children[1..];
      assert forall j :: 0 <= j < |rest| ==> Ids(rest)[j] == Ids(children)[j + 1];
      assert Ids(children)[0] == children[0].report.id;
      MarkFrameAt(codec, Update(s, Marked(codec, children[0], status).report).0, rest, status, id);
    }
  }

  /** Marking children touches no other row, nor the identity of theirs. */
  lemma MarkFrame(codec: Codec, s: Store, children: seq<Child>, status: JobStatus)
    ensures var r := MarkChildren(codec, s, children, status).store.rows;
            && r.Keys == s.rows.Keys
            && (forall id :: id in s.rows && id !in Ids(children) ==> r[id] == s.rows[id])
            && (forall id :: id in s.rows ==> r[id].name == s.rows[id].name && r[id].parentId == s.rows[id].parentId)
  {
    hide MarkChildren, Ids;
    var r := MarkChildren(codec, s, children, status).store.rows;
    forall id ensures id in r <==> id in s.rows {
      MarkFrameAt(codec, s, children, status, id);
    }
    forall id | id in s.rows
      ensures id !in Ids(children) ==> r[id] == s.rows[id]
      ensures r[id].name == s.rows[id].name && r[id].parentId == s.rows[id].parentId
    {
      MarkFrameAt(codec, s, children, status, id);
    }
  }

  /** Marking gets as far as child `i`: no state up to it fails to encode, and no write fails. */
  ghost predicate Reaches(codec: Codec, s: Store, children: seq<Child>, i: nat) {
    Encodes(codec, children, i + 1) && NoFault(s.faults, i + 1)
  }

  /** Child `i` is marked if marking gets to it, and is untouched otherwise. */
  ghost predicate MarkedTo(codec: Codec, s: Store, s': Store, children: seq<Child>, status: JobStatus, i: nat)
    requires i < |children|
  {
    var id := children[i].report.id;
    && id in s.rows && id in s'.rows
    && if Reaches(codec, s, children, i) then Saved(s', id, status, codec.encode(children[i].state)) else s'.rows[id] == s.rows[id]
  }

  /**
   Marking children saves exactly those before the first state that cannot be encoded and the first
   write that fails, leaves the others as they were, and reports success exactly when there is neither.
   */
  lemma {:induction false} MarkSavesUpToFault(codec: Codec, s: Store, children: seq<Child>, status: JobStatus)
    requires Markable(s, children, status)
    ensures var r := MarkChildren(codec, s, children, status);
            && (forall i :: 0 <= i < |children| ==> MarkedTo(codec, s, r.store, children, status, i))
            && (r.ok <==> Encodes(codec, children, |children|) && NoFault(s.faults, |children|))
            && (r.ok ==> r.store.faults == Later(s.faults, |children|))
    decreases |children|
  {
    if children != [] {
      var (s', ok) := Update(s, Marked(codec, children[0], status).report);
      if codec.encode(children[0].state).None? || !ok {
        assert forall i :: 0 <= i < |children| ==> !Reaches(codec, s, children, i);
      } else {
        var rest := children[1..];
        TailMarkable(codec, s, children, status);
        MarkSavesUpToFault(codec, s', rest, status);
        MarkFrame(codec, s', rest, status);
        var r := MarkChildren(codec, s', rest, status);
        forall i | 0 <= i < |children| ensures MarkedTo(codec, s, r.store, children, status, i) {
          ReachesShift(codec, s, s', children, i);
          if i > 0 {
            assert children[i] == rest[i - 1] && Ids(rest)[i - 1] != children[0].report.id;
            assert MarkedTo(codec, s', r.store, rest, status, i - 1);
          }
        }
        FaultsShift(s.faults, |rest|);
        EncodesShift(codec, children, |rest|);
      }
    }
  }

  lemma EncodesShift(codec: Codec, children: seq<Child>, n: nat)
    requires children != [] && codec.encode(children[0].state).Some?
    ensures Encodes(codec, children, n + 1) <==> Encodes(codec, children[1..], n)
  {
    var rest := children[1..];
    assert forall k :: 0 <= k < |rest| ==> rest[k] == children[k + 1];
    if Encodes(codec, rest, n) {
      forall k | 0 <= k < n + 1 && k < |children| ensures codec.encode(children[k].state).Some? {
        if k > 0 {
          assert codec.encode(rest[k - 1].state).Some?;
        }
      }
    }
  }

  lemma ReachesShift(codec: Codec, s: Store, s': Store, children: seq<Child>, i: nat)
    requires children != [] && codec.encode(children[0].state).Some? && !Fails(s) && s'.faults == Later(s.faults, 1)
    ensures if i == 0 then Reaches(codec, s, children, 0)
            else Reaches(codec, s, children, i) <==> Reaches(codec, s', children[1..], i - 1)
  {
    if i > 0 {
      EncodesShift(codec, children, i);
      FaultsShift(s.faults, i);
    }
  }

  lemma FaultsShift(faults: seq<bool>, n: nat)
    requires faults != [] ==> !faults[0]
    ensures NoFault(faults, n + 1) <==> NoFault(Later(faults, 1), n)
    ensures Later(Later(faults, 1), n) == Later(faults, n + 1)
  {
    var later := Later(faults, 1);
    assert forall k :: 0 <= k < |later| ==> later[k] == faults[k + 1];
    if NoFault(later, n) {
      forall k | 0 <= k < n + 1 && k < |faults| ensures !faults[k] {
        if k > 0 {
          assert !later[k - 1];
        }
      }
    }
  }

  ghost predicate AllSaved(codec: Codec, s: Store, id: nat, blob: Blob, children: seq<Child>) {
    && Saved(s, id, Paused, Some(blob))
    && forall i :: 0 <= i < |children| ==> Saved(s, children[i].report.id, Paused, codec.encode(children[i].state))
  }

  /** The rows after a shutdown: the children as far as marking got, and the job's own if its write succeeds. */
  lemma ShutdownRows(codec: Codec, s: Store, report: Report, children: seq<Child>, blob: Blob, reply: nat)
    requires Markable(s, children, Paused)
    requires report.id in s.rows && s.rows[report.id].status != Paused && report.id !in Ids(children)
    ensures var p := Process(codec, s, report, children, PausedWith(blob, reply));
            && (forall i :: 0 <= i < |children| ==> MarkedTo(codec, s, p.store, children, Paused, i))
            && (Saved(p.store, report.id, Paused, Some(blob)) <==> !Fails(MarkChildren(codec, s, children, Paused).store))
  {
    var marked := MarkChildren(codec, s, children, Paused);
    MarkSavesUpToFault(codec, s, children, Paused);
    MarkFrame(codec, s, children, Paused);
    var p := Process(codec, s, report, children, PausedWith(blob, reply));
    hide MarkChildren, Reaches, Markable;
    forall i | 0 <= i < |children| ensures MarkedTo(codec, s, p.store, children, Paused, i) {
      assert Ids(children)[i] != report.id;
      assert MarkedTo(codec, s, marked.store, children, Paused, i);
    }
  }

  /**
   A shutdown is answered last and answered always; the job's row and every child's row hold their
   states at that moment exactly when every child's state can be encoded and none of the writes failed.
   */
  lemma ShutdownIsDurableExactly(codec: Codec, s: Store, report: Report, children: seq<Child>, blob: Blob, reply: nat)
    requires Markable(s, children, Paused)
    requires report.id in s.rows && s.rows[report.id].status != Paused && report.id !in Ids(children)
    ensures var p := Process(codec, s, report, children, PausedWith(blob, reply));
            && p.replies == [reply] && p.store.journal != [] && p.store.journal[|p.store.journal| - 1] == Replied(reply)
            && (AllSaved(codec, p.store, report.id, blob, children)
                <==> Encodes(codec, children, |children|) && NoFault(s.faults, |children| + 1))
            && (forall i :: 0 <= i < |children| ==> MarkedTo(codec, s, p.store, children, Paused, i))
  {
    ShutdownRows(codec, s, report, children, blob, reply);
    MarkSavesUpToFault(codec, s, children, Paused);
    var marked := MarkChildren(codec, s, children, Paused);
    var p := Process(codec, s, report, children, PausedWith(blob, reply));
    hide MarkChildren, Process;
    if marked.ok {
      LaterFault(s.faults, |children|);
      forall i | 0 <= i < |children| ensures Saved(p.store, children[i].report.id, Paused, codec.encode(children[i].state)) {
        assert Reaches(codec, s, children, i) && MarkedTo(codec, s, p.store, children, Paused, i);
      }
    } else {
      var last := |children| - 1;
      assert !Reaches(codec, s, children, last) && MarkedTo(codec, s, p.store, children, Paused, last);
    }
  }

  lemma LaterFault(faults: seq<bool>, n: nat)
    requires NoFault(faults, n)
    ensures NoFault(faults, n + 1) <==> !(Later(faults, n) != [] && Later(faults, n)[0])
  {
  }
}
