/** The next start: `cold_resume` and `new_from_report` over the rows a shutdown left. */
module JobResume {
  import opened Outcomes
  import opened JobWorker
  import Run = JobRun

  datatype Resumed = Resumed(id: nat, state: Run.JobState, parentId: Option<nat>)

  /** The rows `cold_resume` looks for. */
  predicate Wanted(row: Row) {
    row.status == Paused || row.status == Running || row.status == Queued
  }

  /** `initialize_resumable_job`: a known job name, and data that decodes. */
  function StateOf(codec: Codec, known: set<string>, row: Row): Option<Run.JobState> {
    if row.name in known && row.data.Some? then codec.decode(row.data.value) else None
  }

  function CancelRow(s: Store, id: nat): (Store, bool) {
    if Fails(s) || id !in s.rows then (Refused(s, id), false)
    else (Put(s, id, s.rows[id].(status := Canceled)), true)
  }

  datatype Resumption = Resumption(store: Store, resumed: seq<Resumed>, ok: bool)

  /**
   `cold_resume` over the snapshot it has read: each row is dispatched with its state or canceled. A
   failed write ends it. What the dispatched jobs then write themselves is not part of this function.
   */
  function ColdResume(codec: Codec, known: set<string>, s: Store, found: seq<(nat, Row)>): Resumption
    decreases |found|
  {
    if found == [] then Resumption(s, [], true)
    else
      var (id, row) := found[0];
      match StateOf(codec, known, row)
      case Some(state) =>
        var r := ColdResume(codec, known, s, found[1..]);
        r.(resumed := [Resumed(id, state, row.parentId)] + r.resumed)
      case None =>
        var (s', ok) := CancelRow(s, id);
        if ok then ColdResume(codec, known, s', found[1..]) else Resumption(s', [], false)
  }

  /** The query's answer: every wanted row of the store, once, in any order. */
  ghost predicate FindsWanted(s: Store, found: seq<(nat, Row)>) {
    && (forall i, j :: 0 <= i < j < |found| ==> found[i].0 != found[j].0)
    && (forall i :: 0 <= i < |found| ==> found[i].0 in s.rows && s.rows[found[i].0] == found[i].1 && Wanted(found[i].1))
    && (forall id :: id in s.rows && Wanted(s.rows[id]) ==> exists i :: 0 <= i < |found| && found[i].0 == id)
  }

  /** A row is dispatched with the state it decodes to, once, or it is canceled because it has none; nothing else changes. */
  lemma {:induction false} EachRowIsResumedOrCanceled(
      codec: Codec, known: set<string>, s: Store, found: seq<(nat, Row)>, i: nat)
    requires s.faults == [] && i < |found|
    requires forall j :: 0 <= j < |found| ==> found[j].0 in s.rows
    requires forall j, k :: 0 <= j < k < |found| ==> found[j].0 != found[k].0
    requires s.rows[found[i].0] == found[i].1
    ensures var r := ColdResume(codec, known, s, found);
            var (id, row) := found[i];
            && r.ok && id in r.store.rows
            && (r.store.rows[id] == if StateOf(codec, known, row).Some? then row else row.(status := Canceled))
            && (forall x :: x in r.resumed && x.id == id ==> StateOf(codec, known, row) == Some(x.state) && x.parentId == row.parentId)
            && (StateOf(codec, known, row).Some? ==> Resumed(id, StateOf(codec, known, row).value, row.parentId) in r.resumed)
            && (forall j, k :: 0 <= j < k < |r.resumed| && r.resumed[j].id == id ==> r.resumed[k].id != id)
    decreases |found|
  {
    var (id0, row0) := found[0];
    var rest := found[1..];
    assert forall j :: 0 <= j < |rest| ==> rest[j] == found[j + 1];
    var s' := if StateOf(codec, known, row0).Some? then s else CancelRow(s, id0).0;
    if i == 0 {
      OthersUntouched(codec, known, s', rest, id0);
    } else {
      assert rest[i - 1] == found[i];
      EachRowIsResumedOrCanceled(codec, known, s', rest, i - 1);
    }
  }

  lemma {:induction false} OthersUntouched(codec: Codec, known: set<string>, s: Store, found: seq<(nat, Row)>, id: nat)
    requires s.faults == [] && id in s.rows
    requires forall j :: 0 <= j < |found| ==> found[j].0 in s.rows && found[j].0 != id
    ensures var r := ColdResume(codec, known, s, found);
            r.ok && id in r.store.rows && r.store.rows[id] == s.rows[id] && forall x :: x in r.resumed ==> x.id != id
    decreases |found|
  {
    if found != [] {
      var (id0, row0) := found[0];
      var s' := if StateOf(codec, known, row0).Some? then s else CancelRow(s, id0).0;
      assert forall j :: 0 <= j < |found[1..]| ==> found[1..][j] == found[j + 1];
      OthersUntouched(codec, known, s', found[1..], id);
    }
  }

  ghost predicate Faithful(codec: Codec) {
    forall state, blob :: codec.encode(state) == Some(blob) ==> codec.decode(blob) == Some(state)
  }

  /** The row of a job that was saved under a known name comes back with exactly the saved state. */
  lemma SavedRowIsResumed(
      codec: Codec, known: set<string>, s: Store, found: seq<(nat, Row)>, id: nat, state: Run.JobState)
    requires s.faults == [] && FindsWanted(s, found) && Faithful(codec)
    requires codec.encode(state).Some? && Saved(s, id, Paused, codec.encode(state)) && s.rows[id].name in known
    ensures var r := ColdResume(codec, known, s, found);
            && r.ok && Resumed(id, state, s.rows[id].parentId) in r.resumed
            && (forall x :: x in r.resumed && x.id == id ==> x.state == state)
            && id in r.store.rows && r.store.rows[id] == s.rows[id]
  {
    assert Wanted(s.rows[id]);
    var i :| 0 <= i < |found| && found[i].0 == id;
    EachRowIsResumedOrCanceled(codec, known, s, found, i);
  }

  /** The row of a queued job that never got a state is canceled, and the job is not dispatched. */
  lemma UnsavedRowIsCanceled(codec: Codec, known: set<string>, s: Store, found: seq<(nat, Row)>, id: nat)
    requires s.faults == [] && FindsWanted(s, found)
    requires id in s.rows && s.rows[id].status == Queued && s.rows[id].data.None?
    ensures IsCanceled(s, ColdResume(codec, known, s, found), id)
  {
    assert Wanted(s.rows[id]);
    var i :| 0 <= i < |found| && found[i].0 == id;
    EachRowIsResumedOrCanceled(codec, known, s, found, i);
  }

  ghost predicate IsCanceled(s: Store, r: Resumption, id: nat) {
    && id in s.rows && id in r.store.rows && r.store.rows[id] == s.rows[id].(status := Canceled)
    && forall x :: x in r.resumed ==> x.id != id
  }

  /**
   Every row of a job that was queued, running or paused is settled by the next start: dispatched with
   its state if its name is known and its data decodes, canceled otherwise. No other row is touched.
   */
  lemma NoRowIsLeftBehind(codec: Codec, known: set<string>, s: Store, found: seq<(nat, Row)>, id: nat)
    requires s.faults == [] && FindsWanted(s, found) && id in s.rows
    ensures var row, r := s.rows[id], ColdResume(codec, known, s, found);
            && r.ok && id in r.store.rows
            && if row.status == Queued || row.status == Running || row.status == Paused then
                 if row.name in known && row.data.Some? && codec.decode(row.data.value).Some? then
                   r.store.rows[id] == row && Resumed(id, codec.decode(row.data.value).value, row.parentId) in r.resumed
                 else IsCanceled(s, r, id)
               else r.store.rows[id] == row && forall x :: x in r.resumed ==> x.id != id
  {
    if Wanted(s.rows[id]) {
      var i :| 0 <= i < |found| && found[i].0 == id;
      EachRowIsResumedOrCanceled(codec, known, s, found, i);
    } else {
      assert forall j :: 0 <= j < |found| ==> found[j].0 != id;
      OthersUntouched(codec, known, s, found, id);
    }
    hide ColdResume;
  }

  /** A job is dispatched with its state, and the row that holds it stays. */
  ghost predicate Survives(codec: Codec, s: Store, r: Resumption, id: nat, state: Run.JobState) {
    && id in s.rows && Resumed(id, state, s.rows[id].parentId) in r.resumed
    && (forall x :: x in r.resumed && x.id == id ==> x.state == state)
    && Saved(r.store, id, Paused, codec.encode(state))
  }

  lemma ChildSurvives(
      codec: Codec, known: set<string>, s: Store, s': Store, children: seq<Child>, found: seq<(nat, Row)>, i: nat)
    requires s.faults == [] && s'.faults == [] && Faithful(codec) && FindsWanted(s', found)
    requires i < |children| && MarkedTo(codec, s, s', children, Paused, i)
    requires s'.rows[children[i].report.id].name in known
    requires s'.rows[children[i].report.id].parentId == s.rows[children[i].report.id].parentId
    ensures var id, r := children[i].report.id, ColdResume(codec, known, s', found);
            if Encodes(codec, children, i + 1) then Survives(codec, s, r, id, children[i].state)
            else s.rows[id].status == Queued && s.rows[id].data.None? ==> IsCanceled(s, r, id)
  {
    var id := children[i].report.id;
    if Encodes(codec, children, i + 1) {
      SavedRowIsResumed(codec, known, s', found, id, children[i].state);
    } else if s.rows[id].status == Queued && s.rows[id].data.None? {
      UnsavedRowIsCanceled(codec, known, s', found, id);
    }
    hide ColdResume, FindsWanted, Faithful;
  }

  /**
   From the shutdown of a running job to the next start: with writes that succeed and a faithful
   codec, the job is dispatched with exactly the state it had when the shutdown was answered, and so
   is every child before the first whose state cannot be encoded. That child and those behind it, if
   they were queued without a state, are canceled.
   */
  lemma ShutdownSurvivesRestart(
      codec: Codec, known: set<string>, s: Store, report: Report, children: seq<Child>,
      data: Run.Data, work: Run.Work, reply: nat, found: seq<(nat, Row)>)
    requires s.faults == [] && Faithful(codec)
    requires Markable(s, children, Paused) && codec.encode(Run.Saved(data, work)).Some?
    requires report.id in s.rows && s.rows[report.id].status != Paused && report.id !in Ids(children)
    requires s.rows[report.id].name in known
    requires forall i :: 0 <= i < |children| ==> s.rows[children[i].report.id].name in known
    requires var p := Process(codec, s, report, children, ResultOf(codec, Run.Interrupted(data, work, reply)));
             FindsWanted(p.store, found)
    ensures var p := Process(codec, s, report, children, ResultOf(codec, Run.Interrupted(data, work, reply)));
            var r := ColdResume(codec, known, p.store, found);
            && p.replies == [reply] && r.ok
            && Survives(codec, s, r, report.id, Run.Saved(data, work))
            && forall i :: 0 <= i < |children| ==>
                 var id := children[i].report.id;
                 if Encodes(codec, children, i + 1) then Survives(codec, s, r, id, children[i].state)
                 else s.rows[id].status == Queued && s.rows[id].data.None? ==> IsCanceled(s, r, id)
  {
    var blob := codec.encode(Run.Saved(data, work)).value;
    ShutdownRows(codec, s, report, children, blob, reply);
    MarkNoFaults(codec, s, children, Paused);
    var p := Process(codec, s, report, children, PausedWith(blob, reply));
    ProcessFrame(codec, s, report, children, blob, reply);
    hide Process, MarkChildren, ColdResume, Faithful, FindsWanted, Markable;
    SavedRowIsResumed(codec, known, p.store, found, report.id, Run.Saved(data, work));
    var r := ColdResume(codec, known, p.store, found);
    forall i | 0 <= i < |children|
      ensures var id := children[i].report.id;
              if Encodes(codec, children, i + 1) then Survives(codec, s, r, id, children[i].state)
              else s.rows[id].status == Queued && s.rows[id].data.None? ==> IsCanceled(s, r, id)
    {
      ChildSurvives(codec, known, s, p.store, children, found, i);
    }
  }

  lemma ProcessFrame(codec: Codec, s: Store, report: Report, children: seq<Child>, blob: Blob, reply: nat)
    requires s.faults == [] && report.id in s.rows
    ensures var p := Process(codec, s, report, children, PausedWith(blob, reply));
            && p.store.rows.Keys == s.rows.Keys && p.store.faults == []
            && forall id :: id in s.rows ==> p.store.rows[id].name == s.rows[id].name && p.store.rows[id].parentId == s.rows[id].parentId
  {
    MarkFrame(codec, s, children, Paused);
    MarkNoFaults(codec, s, children, Paused);
  }

  /** A root job that was still queued has no saved state: its row is canceled at the next start. */
  lemma QueuedRootIsCanceled(codec: Codec, known: set<string>, s: Store, report: Report, found: seq<(nat, Row)>)
    requires s.faults == [] && report.status == Queued && report.data == None && report.parentId == None
    requires report.id !in s.rows && FindsWanted(Create(s, report).0, found)
    ensures var r := ColdResume(codec, known, Create(s, report).0, found);
            && r.ok && report.id in r.store.rows && r.store.rows[report.id].status == Canceled
            && forall x :: x in r.resumed ==> x.id != report.id
  {
    var s' := Create(s, report).0;
    assert Wanted(s'.rows[report.id]);
    var i :| 0 <= i < |found| && found[i].0 == report.id;
    EachRowIsResumedOrCanceled(codec, known, s', found, i);
  }
}
