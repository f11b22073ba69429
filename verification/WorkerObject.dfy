/**
 The objects a worker updates in place: the job table, and the report and children of its job. Each
 method is the loop or branch the program runs, proved to compute the functions of `JobWorker`.
 */
module WorkerObject {
  import opened Outcomes
  import opened JobWorker
  import opened JobResume
  import Run = JobRun

  class Database {
    var rows: map<nat, Row>
    var faults: seq<bool>
    var journal: seq<Entry>

    constructor (rows: map<nat, Row>, faults: seq<bool>)
      ensures View() == Store(rows, faults, [])
    {
      this.rows, this.faults, journal := rows, faults, [];
    }

    function View(): Store
      reads this
    {
      Store(rows, faults, journal)
    }

    /** Whether the next write goes through, and its entry in the journal. */
    method Attempt(id: nat, allowed: bool) returns (ok: bool)
      modifies this
      ensures ok <==> allowed && !Fails(old(View()))
      ensures rows == old(rows) && faults == Later(old(faults), 1)
      ensures journal == old(journal) + [if ok then Wrote(id) else WriteFailed(id)]
    {
      var fault := faults != [] && faults[0];
      faults := if faults == [] then [] else faults[1..];
      ok := allowed && !fault;
      journal := journal + [if ok then Wrote(id) else WriteFailed(id)];
    }

    method CreateRow(r: Report) returns (report: Report, ok: bool)
      modifies this
      ensures (View(), report, ok) == Create(old(View()), r)
      ensures ok ==> HoldsReport(View(), r) && report == r.(created := true) && r.id !in old(rows)
    {
      report := r;
      ok := Attempt(r.id, r.id !in rows && (r.parentId.Some? ==> r.parentId.value in rows));
      if ok {
        rows := rows[r.id := Row(r.name, r.status, r.data, [], r.parentId, false)];
        // only set after the row exists
        report := r.(created := true);
      }
    }

    method UpdateRow(r: Report) returns (ok: bool)
      modifies this
      ensures (View(), ok) == Update(old(View()), r)
      ensures ok ==>
                && r.id in old(rows) && rows.Keys == old(rows).Keys
                && rows[r.id].status == r.status && rows[r.id].data == r.data
                && rows[r.id].errorsText == r.errorsText && rows[r.id].completed == r.completed
                && rows[r.id].name == old(rows)[r.id].name && rows[r.id].parentId == old(rows)[r.id].parentId
    {
      ok := Attempt(r.id, r.id in rows);
      if ok {
        rows := rows[r.id := rows[r.id].(status := r.status, data := r.data, errorsText := r.errorsText, completed := r.completed)];
      }
    }

    method SendReply(reply: nat)
      modifies this
      ensures View() == Answer(old(View()), reply)
    {
      journal := journal + [Replied(reply)];
    }

    /** `cold_resume`, over the rows its query found. */
    method ColdResumeRows(codec: Codec, known: set<string>, found: seq<(nat, Row)>) returns (resumed: seq<Resumed>, ok: bool)
      modifies this
      ensures ColdResume(codec, known, old(View()), found) == Resumption(View(), resumed, ok)
    {
      resumed := [];
      ghost var start := View();
      for i := 0 to |found|
        invariant var r := ColdResume(codec, known, View(), found[i..]);
                  ColdResume(codec, known, start, found) == r.(resumed := resumed + r.resumed)
      {
        var (id, row) := found[i];
        assert found[i..][0] == found[i] && found[i..][1..] == found[i + 1..];
        var state := if row.name in known && row.data.Some? then codec.decode(row.data.value) else None;
        if state.Some? {
          resumed := resumed + [Resumed(id, state.value, row.parentId)];
        } else {
          var done := Attempt(id, id in rows);
          if !done {
            assert resumed + [] == resumed;
            return resumed, false;
          }
          rows := rows[id := rows[id].(status := Canceled)];
        }
      }
      assert found[|found|..] == [] && resumed + [] == resumed;
      ok := true;
    }
  }

  /** The children before the loop's index, and what the function makes of the others. */
  function Behind(done: seq<Child>, r: Children): Children {
    r.(children := done + r.children)
  }

  lemma RegisterStep(s: Store, done: seq<Child>, todo: seq<Child>)
    requires todo != []
    ensures var r := Behind(done, RegisterChildren(s, todo));
            if todo[0].report.created then r == Behind(done + [todo[0]], RegisterChildren(s, todo[1..]))
            else
              var (s', report, ok) := Create(s, todo[0].report);
              r == if ok then Behind(done + [todo[0].(report := report)], RegisterChildren(s', todo[1..]))
                   else Children(s', done + todo, false)
  {
    var (s', report, ok) := Create(s, todo[0].report);
    var child := if todo[0].report.created then todo[0] else todo[0].(report := report);
    var tail := RegisterChildren(if todo[0].report.created then s else s', todo[1..]).children;
    assert done + ([child] + tail) == done + [child] + tail;
  }

  lemma MarkStep(codec: Codec, s: Store, done: seq<Child>, todo: seq<Child>, status: JobStatus)
    requires todo != []
    ensures var r := Behind(done, MarkChildren(codec, s, todo, status));
            if codec.encode(todo[0].state).None? then r == Children(s, done + todo, false)
            else
              var child := Marked(codec, todo[0], status);
              var (s', ok) := Update(s, child.report);
              r == if ok then Behind(done + [child], MarkChildren(codec, s', todo[1..], status))
                   else Children(s', done + ([child] + todo[1..]), false)
  {
    var child := Marked(codec, todo[0], status);
    var tail := MarkChildren(codec, Update(s, child.report).0, todo[1..], status).children;
    assert done + ([child] + tail) == done + [child] + tail;
  }

  lemma MarkStart(codec: Codec, s: Store, children: seq<Child>, status: JobStatus)
    ensures var r := MarkChildren(codec, s, children, status);
            Behind(children[..0], MarkChildren(codec, s, children[0..], status)) == r
            && (children == [] ==> r == Children(s, [], true))
  {
    assert children[0..] == children && forall r: Children :: [] + r.children == r.children;
  }

  lemma Replaced(children: seq<Child>, i: nat, child: Child)
    requires i < |children|
    ensures var done, todo, r := children[..i], children[i..], children[i := child];
            && todo[0] == children[i] && children == done + todo
            && r[..i + 1] == done + [child] && r[i + 1..] == todo[1..] && r == done + ([child] + todo[1..])
  {
  }

  class WorkTable {
    var report: Report
    var nextJobs: seq<Child>

    constructor (report: Report, nextJobs: seq<Child>)
      ensures this.report == report && this.nextJobs == nextJobs
    {
      this.report, this.nextJobs := report, nextJobs;
    }

    method RegisterAll(db: Database) returns (ok: bool)
      modifies this, db
      ensures report == old(report)
      ensures RegisterChildren(old(db.View()), old(nextJobs)) == Children(db.View(), nextJobs, ok)
    {
      var i := 0;
      ghost var todo := nextJobs;
      assert Behind([], RegisterChildren(db.View(), todo)) == RegisterChildren(db.View(), todo);
      while i < |nextJobs|
        invariant i <= |nextJobs| && nextJobs[i..] == todo && report == old(report)
        invariant RegisterChildren(old(db.View()), old(nextJobs)) == Behind(nextJobs[..i], RegisterChildren(db.View(), todo))
        decreases |nextJobs| - i
      {
        var child := nextJobs[i];
        Replaced(nextJobs, i, child);
        RegisterStep(db.View(), nextJobs[..i], todo);
        hide RegisterChildren;
        if !child.report.created {
          var created, done := db.CreateRow(child.report);
          if !done {
            return false;
          }
          child := child.(report := created);
        }
        Replaced(nextJobs, i, child);
        nextJobs := nextJobs[i := child];
        i, todo := i + 1, todo[1..];
      }
      assert nextJobs[..i] + [] == nextJobs;
      ok := true;
    }

    method MarkOne(codec: Codec, db: Database, child: Child, status: JobStatus)
      returns (marked: Child, encoded: bool, written: bool)
      modifies db
      ensures encoded <==> codec.encode(child.state).Some?
      ensures !encoded ==> db.View() == old(db.View()) && marked == child && !written
      ensures encoded ==> marked == Marked(codec, child, status) && (db.View(), written) == Update(old(db.View()), marked.report)
    {
      marked, written := child, false;
      var state := codec.encode(child.state);
      encoded := state.Some?;
      if encoded {
        marked := child.(report := child.report.(status := status, data := state));
        written := db.UpdateRow(marked.report);
      }
    }

    /** `pause_children` with `Paused`, `cancel_children` with `Canceled`. */
    method MarkAll(codec: Codec, db: Database, status: JobStatus) returns (ok: bool)
      modifies this, db
      ensures report == old(report)
      ensures MarkChildren(codec, old(db.View()), old(nextJobs), status) == Children(db.View(), nextJobs, ok)
    {
      hide MarkChildren, Marked, Update;
      var i := 0;
      ghost var goal := MarkChildren(codec, db.View(), nextJobs, status);
      MarkStart(codec, db.View(), nextJobs, status);
      while i < |nextJobs|
        invariant i <= |nextJobs| && report == old(report)
        invariant goal == Behind(nextJobs[..i], MarkChildren(codec, db.View(), nextJobs[i..], status))
        decreases |nextJobs| - i
      {
        ghost var done, todo := nextJobs[..i], nextJobs[i..];
        MarkStep(codec, db.View(), done, todo, status);
        var child, encoded, written := MarkOne(codec, db, nextJobs[i], status);
        Replaced(nextJobs, i, child);
        nextJobs := nextJobs[i := child];
        if !encoded || !written {
          return false;
        }
        i := i + 1;
      }
      MarkStart(codec, db.View(), [], status);
      assert nextJobs[i..] == [] && nextJobs[..i] + [] == nextJobs;
      ok := true;
    }

    /** `process_job_output`; what `next_job` is then made of stays in `nextJobs`. */
    method ProcessJobOutput(codec: Codec, db: Database, result: JobResult) returns (replies: seq<nat>, goesOn: bool)
      modifies this, db
      ensures Process(codec, old(db.View()), old(report), old(nextJobs), result)
              == Processed(db.View(), report, nextJobs, replies, goesOn)
      ensures old(db.faults) == [] && old(report.id) in old(db.rows) && old(report.id) !in Ids(old(nextJobs)) ==>
                ResultIsStored(old(db.View()), old(report), old(nextJobs), result, Processed(db.View(), report, nextJobs, replies, goesOn))
    {
      if db.faults == [] && report.id in db.rows && report.id !in Ids(nextJobs) {
        ProcessStoresResult(codec, db.View(), report, nextJobs, result);
      }
      hide ResultIsStored;
      replies, goesOn := [], false;
      match result {
        case Success(errors) =>
          if errors == [] {
            report := report.(status := Completed, data := None, completed := true);
          } else {
            report := report.(status := CompletedWithErrors, errorsText := errors, data := None, completed := true);
          }
          var _ := db.UpdateRow(report);
          goesOn := nextJobs != [];
        case PausedWith(blob, reply) =>
          var _ := MarkAll(codec, db, Paused);
          report := report.(status := Paused, data := Some(blob));
          var _ := db.UpdateRow(report);
          db.SendReply(reply);
          replies := [reply];
        case CanceledWith(reply) =>
          var _ := MarkAll(codec, db, Canceled);
          report := report.(status := Canceled, data := None);
          var _ := db.UpdateRow(report);
          db.SendReply(reply);
          replies := [reply];
        case OtherError =>
          var _ := MarkAll(codec, db, Canceled);
          report := report.(status := Failed, data := None);
          var _ := db.UpdateRow(report);
      }
    }
  }
}
