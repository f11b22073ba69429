/**
 The event loop of a worker: it watches its job, gives up on one that is silent for too long, and
 completes it exactly once. Times are seconds.
 */
module WorkerLoop {
  import opened Outcomes
  import opened JobWorker
  import opened WorkerObject

  const FIVE_MINUTES: nat := 300

  /** A joined task gives the job's result, or none if it panicked. */
  datatype Event =
    | JobEnded(result: Option<JobResult>)
    | Progressed(at: nat)
    | PauseReported
    | EventsStopped
    | Tick(now: nat, result: Option<JobResult>)   // with what joining the job would give, once told to stop

  datatype Watch = Watch(isPaused: bool, lastUpdate: nat)

  function After(w: Watch, e: Event): Watch {
    match e
    case Progressed(at) => Watch(false, at)
    case PauseReported => w.(isPaused := true)
    case _ => w
  }

  function Watched(start: nat, events: seq<Event>): Watch {
    if events == [] then Watch(false, start) else After(Watched(start, events[..|events| - 1]), events[|events| - 1])
  }

  predicate Ends(w: Watch, e: Event) {
    e.JobEnded? || (e.Tick? && !w.isPaused && e.now > w.lastUpdate + FIVE_MINUTES)
  }

  datatype Completion = Completion(processed: Option<Processed>, next: bool)

  /** What `complete` is called with; the timeout path has no next job to offer. */
  function CompletionOf(codec: Codec, s: Store, report: Report, children: seq<Child>, e: Event): Completion
    requires e.JobEnded? || e.Tick?
  {
    if e.result.None? then Completion(None, false)
    else
      var p := Process(codec, s, report, children, e.result.value);
      Completion(Some(p), e.JobEnded? && p.goesOn)
  }

  /* ----- when a job is given up ----- */

  predicate Sign(e: Event) {
    e.Progressed? || e.PauseReported?
  }

  /** The last sign of life before `i` is progress more than five minutes old, or the start if there was none. */
  ghost predicate Silent(start: nat, events: seq<Event>, i: nat)
    requires i < |events| && events[i].Tick?
  {
    || (events[i].now > start + 300 && forall k :: 0 <= k < i ==> !Sign(events[k]))
    || exists j :: 0 <= j < i && events[j].Progressed? && events[i].now > events[j].at + 300
                   && forall k :: j < k < i ==> !Sign(events[k])
  }

  lemma {:induction false} WatchTellsLastSign(start: nat, events: seq<Event>)
    ensures var w := Watched(start, events);
            || (w == Watch(false, start) && forall k :: 0 <= k < |events| ==> !Sign(events[k]))
            || exists j :: 0 <= j < |events| && Sign(events[j]) && (forall k :: j < k < |events| ==> !Sign(events[k]))
                           && (if events[j].Progressed? then w == Watch(false, events[j].at) else w.isPaused)
    decreases |events|
  {
    if events != [] {
      var front, last := events[..|events| - 1], events[|events| - 1];
      WatchTellsLastSign(start, front);
      if Sign(last) {
        assert events[|events| - 1] == last;
      } else if j :| 0 <= j < |front| && Sign(front[j]) && (forall k :: j < k < |front| ==> !Sign(front[k]))
                     && (if front[j].Progressed? then Watched(start, front) == Watch(false, front[j].at) else Watched(start, front).isPaused) {
        assert events[j] == front[j];
        assert forall k :: j < k < |events| ==> !Sign(events[k]);
      }
    }
  }

  /** A tick gives the job up exactly if it has been silent for more than five minutes without reporting a pause. */
  lemma GivesUpExactlyIfSilent(start: nat, events: seq<Event>, i: nat)
    requires i < |events| && events[i].Tick?
    ensures Ends(Watched(start, events[..i]), events[i]) <==> Silent(start, events, i)
  {
    var before := events[..i];
    WatchTellsLastSign(start, before);
    if forall k :: 0 <= k < i ==> !Sign(before[k]) {
      assert forall k :: 0 <= k < i ==> events[k] == before[k];
    } else {
      var j :| 0 <= j < |before| && Sign(before[j]) && (forall k :: j < k < |before| ==> !Sign(before[k]))
               && (if before[j].Progressed? then Watched(start, before) == Watch(false, before[j].at) else Watched(start, before).isPaused);
      assert events[j] == before[j];
      assert forall k :: j < k < i ==> events[k] == before[k];
    }
  }

  lemma GoesOnExactly(codec: Codec, s: Store, report: Report, children: seq<Child>, result: JobResult)
    ensures Process(codec, s, report, children, result).goesOn <==> result.Success? && children != []
  {
  }

  /** While writes succeed, the result an event carries is stored in the job's row. */
  ghost predicate StoresResult(s: Store, report: Report, children: seq<Child>, e: Event, completion: Completion)
    requires e.JobEnded? || e.Tick?
  {
    e.result.Some? && s.faults == [] && report.id in s.rows && report.id !in Ids(children) ==>
      completion.processed.Some? && ResultIsStored(s, report, children, e.result.value, completion.processed.value)
  }

  /** The end of the loop: process what the joined task gave, if anything. */
  method Join(codec: Codec, db: Database, table: WorkTable, e: Event) returns (completion: Completion)
    requires e.JobEnded? || e.Tick?
    modifies db, table
    ensures completion == CompletionOf(codec, old(db.View()), old(table.report), old(table.nextJobs), e)
    ensures completion.next <==> e.JobEnded? && e.result.Some? && e.result.value.Success? && old(table.nextJobs) != []
    ensures completion.processed.Some? <==> e.result.Some?
    ensures if completion.processed.Some? then completion.processed.value.store == db.View() else db.View() == old(db.View())
    ensures StoresResult(old(db.View()), old(table.report), old(table.nextJobs), e, completion)
  {
    if e.result.None? {
      return Completion(None, false);
    }
    GoesOnExactly(codec, db.View(), table.report, table.nextJobs, e.result.value);
    hide Process, ResultIsStored;
    var replies, goesOn := table.ProcessJobOutput(codec, db, e.result.value);
    completion := Completion(Some(Processed(db.View(), table.report, table.nextJobs, replies, goesOn)), e.JobEnded? && goesOn);
  }

  /** `do_work`: `at` is the event that ends the loop; until it comes nothing is processed. */
  method DoWork(codec: Codec, db: Database, table: WorkTable, start: nat, events: seq<Event>)
    returns (completion: Option<Completion>, at: nat)
    modifies db, table
    ensures at <= |events| && (completion.None? <==> at == |events|)
    ensures forall j :: 0 <= j < at ==> !Ends(Watched(start, events[..j]), events[j])
    ensures completion.None? ==> db.View() == old(db.View())
    ensures completion.Some? ==>
              && Ends(Watched(start, events[..at]), events[at])
              && completion.value == CompletionOf(codec, old(db.View()), old(table.report), old(table.nextJobs), events[at])
              && (completion.value.next <==>
                    events[at].JobEnded? && events[at].result.Some? && events[at].result.value.Success? && old(table.nextJobs) != [])
              && (completion.value.processed.Some? <==> events[at].result.Some?)
              && (if completion.value.processed.Some? then completion.value.processed.value.store == db.View()
                  else db.View() == old(db.View()))
              && StoresResult(old(db.View()), old(table.report), old(table.nextJobs), events[at], completion.value)
  {
    hide StoresResult;
    var isPaused, lastUpdate := false, start;
    at := 0;
    while at < |events|
      invariant at <= |events| && Watched(start, events[..at]) == Watch(isPaused, lastUpdate)
      invariant forall j :: 0 <= j < at ==> !Ends(Watched(start, events[..j]), events[j])
      invariant db.View() == old(db.View()) && table.report == old(table.report) && table.nextJobs == old(table.nextJobs)
    {
      assert events[..at + 1][..at] == events[..at];
      hide CompletionOf;
      var e := events[at];
      match e {
        case JobEnded(_) =>
          var joined := Join(codec, db, table, e);
          return Some(joined), at;
        case Progressed(now) => isPaused, lastUpdate := false, now;
        case PauseReported => isPaused := true;
        case EventsStopped =>
        case Tick(now, _) =>
          if !isPaused && now > lastUpdate + FIVE_MINUTES {
            var joined := Join(codec, db, table, e);
            return Some(joined), at;
          }
      }
      at := at + 1;
    }
    completion := None;
  }
}
