/**
 One job as a resumable step machine: `Job::run` and its two command loops.

 The merged stream of task results and worker commands that drives a job is a finite sequence
 of messages, in the order in which they are looked at. `Drive` folds the small-step machine
 `React` over that sequence; the class `Job` below is the loop the program executes, proved to
 compute the same thing.
 */
module JobRun {
  import opened Outcomes

  // Whatever a concrete job chooses for these is opaque to the run loop.
  type Data(!new)
  type Step(!new)
  type Metadata(!new)
  type Failure(!new)
  type Output(!new)

  datatype StepOutput = StepOutput(moreSteps: Option<seq<Step>>, moreMetadata: Option<Metadata>, errors: seq<string>)

  datatype StepResult = StepDone(output: StepOutput) | EarlyFinish | StepError(failure: Failure)

  datatype InitResult =
    | InitDone(metadata: Metadata, steps: seq<Step>, errors: seq<string>)
    | InitEarlyFinish
    | InitError(failure: Failure)

  /** The callbacks of a concrete job, deterministic in what the run loop passes them. */
  datatype StatefulJob = StatefulJob(
    init: () -> (Option<Data>, InitResult),
    execute: (Step, nat, Data, Metadata) -> StepResult,
    update: (Metadata, Metadata) -> Metadata,
    finalize: (Option<Data>, Metadata) -> Result<Output, Failure>)

  /** What is serialized into the job row at a shutdown. */
  datatype JobState = JobState(data: Option<Data>, steps: seq<Step>, stepNumber: nat, runMetadata: Metadata)

  /** One-shot reply channels are numbered. */
  datatype Command =
    | Pause
    | Resume
    | IdentifyYourself
    | Cancel(reply: nat)
    | Shutdown(reply: nat)
    | Timeout(reply: nat)

  datatype Message = TaskResult | TaskPanicked | CommandsClosed | NewCommand(command: Command)

  datatype Mode = Running | Paused

  /** The local variables of `run`, with the completed steps and the number of added steps as history. */
  datatype Work = Work(
    steps: seq<Step>, stepNumber: nat, metadata: Metadata, errors: seq<string>,
    completed: seq<(Step, nat)>, added: nat)

  datatype Outcome =
    | Finished(output: Output, result: Option<Data>, work: Work)
    | Failed(failure: Failure)
    | FinalizeFailed(failure: Failure)
    | Interrupted(data: Data, work: Work, reply: nat)
    | Canceled(reply: nat)
    | TimedOut(reply: nat)
    | Panicked
    | ChannelLost

  datatype Machine =
    | Initializing(mode: Mode, state: JobState)
    | Stepping(mode: Mode, data: Data, work: Work)
    | Over(outcome: Outcome)

  /* ----- the small-step machine ----- */

  function Finish(job: StatefulJob, data: Option<Data>, work: Work): Machine {
    match job.finalize(data, work.metadata)
    case Ok(output) => Over(Finished(output, data, work))
    case Err(failure) => Over(FinalizeFailed(failure))
  }

  function Continue(job: StatefulJob, data: Data, work: Work): Machine {
    if work.steps == [] then Finish(job, Some(data), work) else Stepping(Running, data, work)
  }

  function ApplyOutput(job: StatefulJob, work: Work, output: StepOutput): Work
    requires work.steps != []
  {
    var more := match output.moreSteps case Some(steps) => steps case None => [];
    Work(
      work.steps[1..] + more,
      work.stepNumber + 1,
      match output.moreMetadata case Some(m) => job.update(work.metadata, m) case None => work.metadata,
      work.errors + output.errors,
      work.completed + [(work.steps[0], work.stepNumber)],
      work.added + |more|)
  }

  /** The front step's task delivered its result. */
  function ApplyStep(job: StatefulJob, data: Data, work: Work): Machine
    requires work.steps != []
  {
    match job.execute(work.steps[0], work.stepNumber, data, work.metadata)
    case StepDone(output) => Continue(job, data, ApplyOutput(job, work, output))
    case EarlyFinish => Finish(job, Some(data), work.(steps := work.steps[1..]))
    case StepError(failure) => Over(Failed(failure))
  }

  function Fresh(state: JobState): Work {
    Work(state.steps, state.stepNumber, state.runMetadata, [], [], 0)
  }

  /** The init task delivered its result. */
  function ApplyInit(job: StatefulJob, state: JobState): Machine {
    var (data, result) := job.init();
    match result
    case InitError(failure) => Over(Failed(failure))
    case InitEarlyFinish => Finish(job, data, Fresh(state))
    case InitDone(metadata, steps, errors) =>
      var work := Work(steps, state.stepNumber, job.update(state.runMetadata, metadata), errors, [], 0);
      match data
      case Some(d) => Continue(job, d, work)
      case None => Finish(job, None, work)
  }

  function Start(job: StatefulJob, state: JobState): Machine {
    match state.data
    case Some(data) => Continue(job, data, Fresh(state))
    case None => Initializing(Running, state)
  }

  function Saved(data: Data, work: Work): JobState {
    JobState(Some(data), work.steps, work.stepNumber, work.metadata)
  }

  function SetMode(m: Machine, mode: Mode): Machine
    requires !m.Over?
  {
    match m
    case Initializing(_, state) => Initializing(mode, state)
    case Stepping(_, data, work) => Stepping(mode, data, work)
  }

  function React(job: StatefulJob, m: Machine, message: Message): Machine
    requires m.Stepping? ==> m.work.steps != []
  {
    if m.Over? then m else
    match message
    case TaskResult =>
      // a paused job only looks at commands: the result waits
      if m.mode == Paused then m
      else if m.Initializing? then ApplyInit(job, m.state)
      else ApplyStep(job, m.data, m.work)
    case TaskPanicked => if m.mode == Paused then m else Over(Panicked)
    case CommandsClosed => if m.mode == Paused then Over(ChannelLost) else m
    case NewCommand(Pause) => SetMode(m, Paused)
    case NewCommand(Resume) => SetMode(m, Running)
    case NewCommand(IdentifyYourself) => m
    case NewCommand(Cancel(reply)) => Over(Canceled(reply))
    case NewCommand(Timeout(reply)) => Over(TimedOut(reply))
    case NewCommand(Shutdown(reply)) =>
      // at the init phase a shutdown aborts the job
      if m.Initializing? then Over(Canceled(reply)) else Over(Interrupted(m.data, m.work, reply))
  }

  predicate Live(m: Machine) {
    m.Stepping? ==> m.work.steps != []
  }

  function Drive(job: StatefulJob, m: Machine, messages: seq<Message>): (r: Machine)
    requires Live(m)
    ensures Live(r)
    decreases |messages|
  {
    if messages == [] then m else Drive(job, React(job, m, messages[0]), messages[1..])
  }

  lemma {:induction false} RunAppend(job: StatefulJob, m: Machine, a: seq<Message>, b: seq<Message>)
    requires Live(m)
    ensures Drive(job, m, a + b) == Drive(job, Drive(job, m, a), b)
    decreases |a|
  {
    if a == [] {
      assert a + b == b;
    } else {
      assert (a + b)[1..] == a[1..] + b;
      RunAppend(job, React(job, m, a[0]), a[1..], b);
    }
  }

  lemma {:induction false} OverIsFinal(job: StatefulJob, m: Machine, messages: seq<Message>)
    requires m.Over?
    ensures Drive(job, m, messages) == m
    decreases |messages|
  {
    if messages != [] {
      OverIsFinal(job, m, messages[1..]);
    }
  }

  /* ----- pausing ----- */

  ghost predicate Terminal(message: Message) {
    message.NewCommand? && (message.command.Cancel? || message.command.Shutdown? || message.command.Timeout?)
  }

  /** Messages that neither resume a paused job nor end it. */
  ghost predicate Idle(messages: seq<Message>) {
    forall i :: 0 <= i < |messages| ==>
      messages[i] != NewCommand(Resume) && messages[i] != CommandsClosed && !Terminal(messages[i])
  }

  /**
   Between a consumed Pause and the matching Resume nothing starts and no result is taken:
   the machine stays exactly as it was paused, or it ends without having completed anything.
   */
  lemma {:induction false} PauseFreezes(job: StatefulJob, m: Machine, messages: seq<Message>)
    requires !m.Over? && Live(m) && m.mode == Paused
    requires NewCommand(Resume) !in messages
    ensures var r := Drive(job, m, messages);
            r == m
            || (r.Over? && (r.outcome.Canceled? || r.outcome.TimedOut? || r.outcome.ChannelLost?
                            || (m.Stepping? && r.outcome.Interrupted? && r.outcome.data == m.data && r.outcome.work == m.work)))
    ensures Idle(messages) ==> Drive(job, m, messages) == m
    decreases |messages|
  {
    if messages != [] {
      var next := React(job, m, messages[0]);
      if next.Over? {
        OverIsFinal(job, next, messages[1..]);
        assert !Idle(messages);
      } else {
        assert messages[0] in messages;
        assert next == m;
        PauseFreezes(job, m, messages[1..]);
        if Idle(messages) {
          assert Idle(messages[1..]);
        }
      }
    }
  }

  /** A whole pause/resume episode leaves no trace in the run, however long and noisy it was. */
  lemma PauseEpisodeIsTransparent(job: StatefulJob, m: Machine, noise: seq<Message>, rest: seq<Message>)
    requires !m.Over? && Live(m) && m.mode == Running && Idle(noise)
    ensures Drive(job, m, [NewCommand(Pause)] + noise + [NewCommand(Resume)] + rest) == Drive(job, m, rest)
  {
    var pause, resume := [NewCommand(Pause)], [NewCommand(Resume)];
    var paused := SetMode(m, Paused);
    assert Drive(job, m, pause) == paused by {
      assert pause[1..] == [];
    }
    PauseFreezes(job, paused, noise);
    assert Drive(job, paused, resume) == m by {
      assert resume[1..] == [];
    }
    RunAppend(job, m, pause + noise + resume, rest);
    RunAppend(job, m, pause + noise, resume);
    RunAppend(job, m, pause, noise);
  }

  /* ----- one-shot replies ----- */

  function ReplyOf(message: Message): seq<nat> {
    if message.NewCommand? && (message.command.Cancel? || message.command.Shutdown? || message.command.Timeout?)
    then [message.command.reply] else []
  }

  /** The reply channels of the commands the job has received from its channel. */
  function Taken(job: StatefulJob, m: Machine, messages: seq<Message>): seq<nat>
    requires Live(m)
    decreases |messages|
  {
    if m.Over? || messages == [] then []
    else ReplyOf(messages[0]) + Taken(job, React(job, m, messages[0]), messages[1..])
  }

  /** The reply channel that an outcome carries. */
  function Owed(m: Machine): seq<nat> {
    if m.Over? && (m.outcome.Interrupted? || m.outcome.Canceled? || m.outcome.TimedOut?) then [m.outcome.reply] else []
  }

  /** Every one-shot command that was received is the one the outcome answers: none is dropped, none doubled. */
  lemma {:induction false} ReplyIsConserved(job: StatefulJob, m: Machine, messages: seq<Message>)
    requires Live(m) && !m.Over?
    ensures Taken(job, m, messages) == Owed(Drive(job, m, messages))
    ensures |Taken(job, m, messages)| <= 1
    decreases |messages|
  {
    if messages != [] {
      var next := React(job, m, messages[0]);
      if next.Over? {
        OverIsFinal(job, next, messages[1..]);
      } else {
        ReplyIsConserved(job, next, messages[1..]);
      }
    }
  }

  /* ----- interruption and resumption ----- */

  /** What earlier sessions of the same job did. Their errors are not part of the saved state. */
  datatype Past = Past(errors: seq<string>, completed: seq<(Step, nat)>, added: nat)

  const NOTHING: Past := Past([], [], 0)

  function Extend(past: Past, work: Work): Past {
    Past(past.errors + work.errors, past.completed + work.completed, past.added + work.added)
  }

  /** The job's life over several sessions, each started from what the one before it saved. */
  function Sessions(job: StatefulJob, state: JobState, past: Past, sessions: seq<seq<Message>>): (r: (Machine, Past))
    requires sessions != []
    ensures Live(r.0)
    decreases |sessions|
  {
    var m := Drive(job, Start(job, state), sessions[0]);
    if |sessions| > 1 && m.Over? && m.outcome.Interrupted? then
      Sessions(job, Saved(m.outcome.data, m.outcome.work), Extend(past, m.outcome.work), sessions[1..])
    else
      (m, past)
  }

  /** The uninterrupted run from a point: `n` step results and no command. */
  function Uninterrupted(job: StatefulJob, m: Machine, n: nat): (r: Machine)
    requires Live(m)
    ensures Live(r)
    decreases n
  {
    if n == 0 || !m.Stepping? then m else Uninterrupted(job, ApplyStep(job, m.data, m.work), n - 1)
  }

  /** The point at which the uninterrupted run of a saved or brand new job begins. */
  function Begin(job: StatefulJob, state: JobState): (r: Machine)
    ensures Live(r)
  {
    if state.data.Some? then Start(job, state) else ApplyInit(job, state)
  }

  function Lift(past: Past, work: Work): Work {
    work.(errors := past.errors + work.errors, completed := past.completed + work.completed, added := past.added + work.added)
  }

  function LiftMachine(past: Past, m: Machine): Machine {
    match m
    case Stepping(mode, data, work) => Stepping(mode, data, Lift(past, work))
    case Over(Finished(output, data, work)) => Over(Finished(output, data, Lift(past, work)))
    case _ => m
  }

  /**
   The machine, put behind the sessions before it, is a point of the uninterrupted run. A run that
   was canceled, timed out or lost its task has left that run and need not agree with anything.
   */
  ghost predicate Agrees(job: StatefulJob, past: Past, m: Machine, plain: Machine) {
    match m
    case Initializing(_, state) => plain == LiftMachine(past, ApplyInit(job, state))
    case Stepping(_, data, work) => plain == Stepping(Running, data, Lift(past, work))
    case Over(Finished(_, _, _)) => plain == LiftMachine(past, m)
    case Over(Failed(_)) => plain == m
    case Over(FinalizeFailed(_)) => plain == m
    case Over(Interrupted(data, work, _)) => plain == Stepping(Running, data, Lift(past, work))
    case _ => true
  }

  lemma LiftCommutes(job: StatefulJob, past: Past, data: Data, work: Work)
    requires work.steps != []
    ensures ApplyStep(job, data, Lift(past, work)) == LiftMachine(past, ApplyStep(job, data, work))
  {
    match job.execute(work.steps[0], work.stepNumber, data, work.metadata)
    case StepDone(output) =>
      var w := ApplyOutput(job, work, output);
      assert past.errors + (work.errors + output.errors) == past.errors + work.errors + output.errors;
      var c := [(work.steps[0], work.stepNumber)];
      assert past.completed + (work.completed + c) == past.completed + work.completed + c;
      assert ApplyOutput(job, Lift(past, work), output) == Lift(past, w);
    case EarlyFinish =>
    case StepError(_) =>
  }

  lemma {:induction false} SessionAgrees(job: StatefulJob, past: Past, m: Machine, plain: Machine, messages: seq<Message>)
    returns (n: nat)
    requires Live(m) && Live(plain) && Agrees(job, past, m, plain)
    ensures Agrees(job, past, Drive(job, m, messages), Uninterrupted(job, plain, n))
    decreases |messages|
  {
    if m.Over? {
      OverIsFinal(job, m, messages);
      n := 0;
    } else if messages == [] {
      n := 0;
    } else {
      var next := React(job, m, messages[0]);
      if m.Stepping? && m.mode == Running && messages[0].TaskResult? {
        LiftCommutes(job, past, m.data, m.work);
        var plain' := ApplyStep(job, plain.data, plain.work);
        n := SessionAgrees(job, past, next, plain', messages[1..]);
        n := n + 1;
      } else {
        n := SessionAgrees(job, past, next, plain, messages[1..]);
      }
    }
  }

  lemma {:induction false} UninterruptedJoins(job: StatefulJob, m: Machine, a: nat, b: nat)
    requires Live(m)
    ensures Uninterrupted(job, m, a + b) == Uninterrupted(job, Uninterrupted(job, m, a), b)
    decreases a
  {
    if a > 0 && m.Stepping? {
      UninterruptedJoins(job, ApplyStep(job, m.data, m.work), a - 1, b);
    }
  }

  lemma {:induction false} SessionsAgree(
      job: StatefulJob, origin: Machine, k: nat, state: JobState, past: Past, sessions: seq<seq<Message>>) returns (n: nat)
    requires sessions != [] && Live(origin)
    requires LiftMachine(past, Begin(job, state)) == Uninterrupted(job, origin, k)
    ensures var (m, p) := Sessions(job, state, past, sessions); Agrees(job, p, m, Uninterrupted(job, origin, n))
    decreases |sessions|
  {
    var first := Start(job, state);
    var plain := Uninterrupted(job, origin, k);
    assert Agrees(job, past, first, plain);
    var more := SessionAgrees(job, past, first, plain, sessions[0]);
    UninterruptedJoins(job, origin, k, more);
    n := k + more;
    var m := Drive(job, first, sessions[0]);
    if |sessions| > 1 && m.Over? && m.outcome.Interrupted? {
      var work := m.outcome.work;
      var saved := Saved(m.outcome.data, work);
      RunKeepsWork(job, first, sessions[0]);
      assert Lift(Extend(past, work), Fresh(saved)) == Lift(past, work);
      n := SessionsAgree(job, origin, n, saved, Extend(past, work), sessions[1..]);
    }
  }

  lemma {:induction false} RunKeepsWork(job: StatefulJob, m: Machine, messages: seq<Message>)
    requires Live(m) && !m.Over?
    ensures var r := Drive(job, m, messages); r.Over? && r.outcome.Interrupted? ==> r.outcome.work.steps != []
    decreases |messages|
  {
    if messages != [] {
      var next := React(job, m, messages[0]);
      if next.Over? {
        OverIsFinal(job, next, messages[1..]);
      } else {
        RunKeepsWork(job, next, messages[1..]);
      }
    }
  }

  /**
   Interrupting a job at any step phases, any number of times, and reloading the saved state each
   time leads to a point of the one uninterrupted run.
   */
  lemma InterruptionIsTransparent(job: StatefulJob, state: JobState, sessions: seq<seq<Message>>) returns (n: nat)
    requires sessions != []
    ensures var (m, past) := Sessions(job, state, NOTHING, sessions);
            Agrees(job, past, m, Uninterrupted(job, Begin(job, state), n))
  {
    var begin := Begin(job, state);
    assert LiftMachine(NOTHING, begin) == begin by {
      if begin.Stepping? {
        assert Lift(NOTHING, begin.work) == begin.work;
      } else if begin.Over? && begin.outcome.Finished? {
        assert Lift(NOTHING, begin.outcome.work) == begin.outcome.work;
      }
    }
    n := SessionsAgree(job, begin, 0, state, NOTHING, sessions);
  }

  lemma {:induction false} EndIsStable(job: StatefulJob, m: Machine, a: nat, b: nat)
    requires Live(m) && Uninterrupted(job, m, a).Over? && a <= b
    ensures Uninterrupted(job, m, b) == Uninterrupted(job, m, a)
  {
    UninterruptedJoins(job, m, a, b - a);
  }

  /**
   Every schedule of interruptions that gets to the end shows that the uninterrupted run ends too, and
   reports what it reports: the same output, data, metadata, step number and completed steps, and a
   suffix of its errors.
   */
  lemma FinishedLikeUninterrupted(job: StatefulJob, state: JobState, sessions: seq<seq<Message>>) returns (end: nat)
    requires sessions != []
    requires var m := Sessions(job, state, NOTHING, sessions).0; m.Over? && m.outcome.Finished?
    ensures Uninterrupted(job, Begin(job, state), end).Over?
    ensures var (m, past) := Sessions(job, state, NOTHING, sessions);
            var plain := Uninterrupted(job, Begin(job, state), end).outcome;
            plain.Finished?
            && m.outcome.output == plain.output && m.outcome.result == plain.result
            && m.outcome.work.metadata == plain.work.metadata
            && m.outcome.work.stepNumber == plain.work.stepNumber
            && m.outcome.work.steps == plain.work.steps
            && past.completed + m.outcome.work.completed == plain.work.completed
            && past.errors + m.outcome.work.errors == plain.work.errors
            && (m.outcome.work.errors == plain.work.errors <==> past.errors == [])
  {
    end := InterruptionIsTransparent(job, state, sessions);
    hide Sessions, Uninterrupted, Begin;
    var (m, past) := Sessions(job, state, NOTHING, sessions);
    assert |past.errors + m.outcome.work.errors| == |past.errors| + |m.outcome.work.errors|;
    assert past.errors == [] ==> past.errors + m.outcome.work.errors == m.outcome.work.errors;
  }

  /* ----- counting steps ----- */

  /** Every completed step was counted once, and the step number and the queue account for all steps but `dropped` ones. */
  ghost predicate Counts(begin: Work, now: Work, dropped: nat) {
    && now.stepNumber == begin.stepNumber + |now.completed| - |begin.completed|
    && now.stepNumber + |now.steps| + dropped - now.added == begin.stepNumber + |begin.steps| - begin.added
  }

  /** At the end all steps are completed, unless the job finished early and dropped the one step it was at. */
  ghost predicate CountsAtEnd(begin: Work, now: Work) {
    (Counts(begin, now, 0) && now.steps == []) || Counts(begin, now, 1)
  }

  lemma {:induction false} StepsAreCounted(job: StatefulJob, m: Machine, n: nat)
    requires Live(m) && m.Stepping?
    ensures var r := Uninterrupted(job, m, n);
            && (r.Stepping? ==> Counts(m.work, r.work, 0) && |r.work.completed| == |m.work.completed| + n)
            && (r.Over? && r.outcome.Finished? ==> CountsAtEnd(m.work, r.outcome.work))
    decreases n
  {
    if n > 0 {
      var next := ApplyStep(job, m.data, m.work);
      if next.Stepping? {
        StepsAreCounted(job, next, n - 1);
      }
    }
  }

  /** The work that a machine holds, put behind the sessions before it. */
  function WorkOf(past: Past, m: Machine): Option<Work> {
    if m.Stepping? then Some(Lift(past, m.work))
    else if m.Over? && (m.outcome.Interrupted? || m.outcome.Finished?) then Some(Lift(past, m.outcome.work))
    else None
  }

  /**
   At every point of every schedule, also where it is interrupted, the step number is the number of
   completed steps, an interrupted step being counted once, and it grows by exactly what leaves the
   queue: nothing is lost or skipped but the step at which a job finishes early.
   */
  lemma StepsAreConserved(job: StatefulJob, state: JobState, sessions: seq<seq<Message>>)
    requires sessions != [] && Begin(job, state).Stepping?
    ensures var (m, past) := Sessions(job, state, NOTHING, sessions);
            var begin := Begin(job, state).work;
            WorkOf(past, m).Some? ==>
              var work := WorkOf(past, m).value;
              if m.Over? && m.outcome.Finished? then CountsAtEnd(begin, work) else Counts(begin, work, 0)
  {
    var n := InterruptionIsTransparent(job, state, sessions);
    BeginIsFresh(job, state);
    StepsAreCounted(job, Begin(job, state), n);
  }

  /* ----- a shutdown before the first step ----- */

  /**
   A session of a brand new job is interrupted, and so saved, only after its init result was taken:
   a shutdown that comes earlier cancels the job.
   */
  lemma {:induction false} InterruptedOnlyAfterInit(job: StatefulJob, m: Machine, messages: seq<Message>) returns (k: nat)
    requires m.Initializing?
    requires var r := Drive(job, m, messages); r.Over? && r.outcome.Interrupted?
    ensures k < |messages| && messages[k] == TaskResult
    ensures var before := Drive(job, m, messages[..k]); before.Initializing? && before.mode == Running
    ensures Drive(job, m, messages[..k + 1]).Stepping?
    decreases |messages|
  {
    var next := React(job, m, messages[0]);
    if next.Initializing? {
      k := InterruptedOnlyAfterInit(job, next, messages[1..]);
      k := k + 1;
      assert messages[..k][1..] == messages[1..][..k - 1] && messages[..k + 1][1..] == messages[1..][..k];
    } else if next.Over? {
      OverIsFinal(job, next, messages[1..]);
      assert false;
    } else {
      k := 0;
      assert messages[..1][1..] == [];
    }
  }

  /** Message `k` is the init result, and the job is looking at it. */
  ghost predicate TakesInit(job: StatefulJob, m: Machine, messages: seq<Message>, k: nat)
    requires Live(m) && k < |messages|
  {
    var before := Drive(job, m, messages[..k]);
    messages[k] == TaskResult && before.Initializing? && before.mode == Running
  }

  lemma {:induction false} InitIsOver(job: StatefulJob, m: Machine, messages: seq<Message>)
    requires Live(m) && !m.Initializing?
    ensures !Drive(job, m, messages).Initializing?
    decreases |messages|
  {
    if messages != [] {
      InitIsOver(job, React(job, m, messages[0]), messages[1..]);
    }
  }

  lemma {:induction false} SteppingOnlyAfterInit(job: StatefulJob, m: Machine, messages: seq<Message>) returns (k: nat)
    requires m.Initializing? && Drive(job, m, messages).Stepping?
    ensures k < |messages| && TakesInit(job, m, messages, k)
    decreases |messages|
  {
    var next := React(job, m, messages[0]);
    if next.Initializing? {
      k := SteppingOnlyAfterInit(job, next, messages[1..]);
      k := k + 1;
      assert messages[..k][1..] == messages[1..][..k - 1];
    } else if next.Over? {
      OverIsFinal(job, next, messages[1..]);
      assert false;
    } else {
      k := 0;
    }
  }

  lemma TakenInitIsOver(job: StatefulJob, m: Machine, messages: seq<Message>, k: nat, j: nat)
    requires m.Initializing? && k < j <= |messages| && TakesInit(job, m, messages, k)
    ensures !Drive(job, m, messages[..j]).Initializing?
  {
    var front := messages[..k];
    assert messages[..j] == front + messages[k..j] && messages[k..j][0] == TaskResult;
    RunAppend(job, m, front, messages[k..j]);
    InitIsOver(job, React(job, Drive(job, m, front), TaskResult), messages[k..j][1..]);
  }

  /** A shutdown that a brand new job takes saves it exactly if its init result was taken before, and cancels it otherwise. */
  lemma ShutdownSavesExactlyAfterInit(job: StatefulJob, m: Machine, messages: seq<Message>, j: nat, reply: nat)
    requires m.Initializing? && j < |messages| && messages[j] == NewCommand(Shutdown(reply))
    requires !Drive(job, m, messages[..j]).Over?
    ensures var r := Drive(job, m, messages);
            && r.Over? && (r.outcome.Interrupted? || r.outcome == Canceled(reply))
            && (r.outcome.Interrupted? <==> exists k :: 0 <= k < j && TakesInit(job, m, messages, k))
  {
    var at := Drive(job, m, messages[..j]);
    assert messages == messages[..j] + messages[j..] && messages[j..][0] == messages[j];
    RunAppend(job, m, messages[..j], messages[j..]);
    OverIsFinal(job, React(job, at, messages[j]), messages[j..][1..]);
    if at.Stepping? {
      var k := SteppingOnlyAfterInit(job, m, messages[..j]);
      assert messages[..j][..k] == messages[..k];
      assert TakesInit(job, m, messages, k);
    }
    forall k | 0 <= k < j && TakesInit(job, m, messages, k) ensures !at.Initializing? {
      TakenInitIsOver(job, m, messages, k, j);
    }
  }

  lemma BeginIsFresh(job: StatefulJob, state: JobState)
    ensures var b := Begin(job, state); b.Stepping? ==> b.work.completed == [] && b.work.added == 0
  {
  }

  /** A schedule cannot complete as many steps as the uninterrupted run needs and still be stepping. */
  lemma ScheduleMakesProgress(job: StatefulJob, state: JobState, sessions: seq<seq<Message>>, end: nat)
    requires sessions != [] && Begin(job, state).Stepping?
    requires Uninterrupted(job, Begin(job, state), end).Over?
    ensures var (m, past) := Sessions(job, state, NOTHING, sessions);
            m.Stepping? ==> |past.completed| + |m.work.completed| < end
  {
    var n := InterruptionIsTransparent(job, state, sessions);
    BeginIsFresh(job, state);
    StepsAreCounted(job, Begin(job, state), n);
    if end <= n {
      EndIsStable(job, Begin(job, state), end, n);
    }
  }

  /* ----- what a run does, told by its callbacks ----- */

  /** The steps that the outputs add, in the order of the outputs. */
  ghost function Added(outs: seq<StepOutput>): seq<Step> {
    if outs == [] then []
    else
      var last := outs[|outs| - 1];
      Added(outs[..|outs| - 1]) + if last.moreSteps.Some? then last.moreSteps.value else []
  }

  /** The metadata that the outputs come to, each updating what was there before. */
  ghost function Folded(job: StatefulJob, metadata: Metadata, outs: seq<StepOutput>): Metadata {
    if outs == [] then metadata
    else
      var last, before := outs[|outs| - 1], Folded(job, metadata, outs[..|outs| - 1]);
      if last.moreMetadata.Some? then job.update(before, last.moreMetadata.value) else before
  }

  ghost function ErrorsOf(outs: seq<StepOutput>): seq<string> {
    if outs == [] then [] else ErrorsOf(outs[..|outs| - 1]) + outs[|outs| - 1].errors
  }

  /** The steps a run takes: the ones it begins with, and then those that are added on the way. */
  ghost function AllSteps(begin: Work, outs: seq<StepOutput>): seq<Step> {
    begin.steps + Added(outs)
  }

  /** Step `k` was executed, with its number and the metadata of the steps before it, and gave output `k`. */
  ghost predicate Executed(job: StatefulJob, data: Data, begin: Work, outs: seq<StepOutput>, k: nat)
    requires k < |outs| <= |AllSteps(begin, outs)|
  {
    job.execute(AllSteps(begin, outs)[k], begin.stepNumber + k, data, Folded(job, begin.metadata, outs[..k])) == StepDone(outs[k])
  }

  ghost function Numbered(steps: seq<Step>, first: nat): (r: seq<(Step, nat)>)
    ensures |r| == |steps| && forall k :: 0 <= k < |r| ==> r[k] == (steps[k], first + k)
  {
    seq(|steps|, k requires 0 <= k < |steps| => (steps[k], first + k))
  }

  /** The work once the steps that gave these outputs are done. */
  ghost predicate Performs(job: StatefulJob, data: Data, begin: Work, outs: seq<StepOutput>, now: Work) {
    var n, all := |outs|, AllSteps(begin, outs);
    && n <= |all|
    && (forall k :: 0 <= k < n ==> Executed(job, data, begin, outs, k))
    && now.steps == all[n..] && now.stepNumber == begin.stepNumber + n
    && now.metadata == Folded(job, begin.metadata, outs)
    && now.errors == begin.errors + ErrorsOf(outs)
    && now.completed == begin.completed + Numbered(all[..n], begin.stepNumber)
    && now.added == begin.added + |Added(outs)|
  }

  /** The next step is executed and says that there is nothing more to do. */
  ghost predicate FinishesEarly(job: StatefulJob, data: Data, now: Work) {
    now.steps != [] && job.execute(now.steps[0], now.stepNumber, data, now.metadata) == EarlyFinish
  }

  ghost predicate Finalizes(job: StatefulJob, data: Option<Data>, now: Work, m: Machine) {
    match job.finalize(data, now.metadata)
    case Ok(output) => m == Over(Finished(output, data, now))
    case Err(failure) => m == Over(FinalizeFailed(failure))
  }

  /** A machine that has performed the steps of `outs` and is at `now`, or has ended there. */
  ghost predicate Explains(job: StatefulJob, data: Data, begin: Work, outs: seq<StepOutput>, now: Work, m: Machine) {
    && Performs(job, data, begin, outs, now)
    && match m
       case Initializing(_, _) => false
       case Stepping(_, d, work) => d == data && work == now && now.steps != []
       case Over(Interrupted(d, work, _)) => d == data && work == now && now.steps != []
       case Over(Failed(failure)) =>
         now.steps != [] && job.execute(now.steps[0], now.stepNumber, data, now.metadata) == StepError(failure)
       case Over(Finished(_, _, _)) =>
         || (now.steps == [] && Finalizes(job, Some(data), now, m))
         || (FinishesEarly(job, data, now) && Finalizes(job, Some(data), now.(steps := now.steps[1..]), m))
       case Over(FinalizeFailed(_)) =>
         (now.steps == [] || FinishesEarly(job, data, now)) && Finalizes(job, Some(data), now, m)
       case _ => true
  }

  /** A machine of a job that began with this work: some outputs of its callbacks explain it. */
  ghost predicate Explained(job: StatefulJob, data: Data, begin: Work, m: Machine) {
    exists outs, now :: Explains(job, data, begin, outs, now, m)
  }

  ghost predicate Aborted(m: Machine) {
    m.Over? && (m.outcome.Canceled? || m.outcome.TimedOut? || m.outcome.Panicked? || m.outcome.ChannelLost?)
  }

  /**
   What a session may come to, from the saved state and the callbacks alone. A job with data goes on
   with its steps; a brand new one first takes its init result, whose metadata updates the saved one
   and whose errors come first.
   */
  ghost predicate RunsJob(job: StatefulJob, state: JobState, m: Machine) {
    if state.data.Some? then
      Explained(job, state.data.value, Work(state.steps, state.stepNumber, state.runMetadata, [], [], 0), m)
    else
      var (data, result) := job.init();
      || Aborted(m)
      || (m.Initializing? && m.state == state)
      || match result
         case InitError(failure) => m == Over(Failed(failure))
         case InitEarlyFinish => Finalizes(job, data, Work(state.steps, state.stepNumber, state.runMetadata, [], [], 0), m)
         case InitDone(metadata, steps, errors) =>
           var begin := Work(steps, state.stepNumber, job.update(state.runMetadata, metadata), errors, [], 0);
           if data.Some? then Explained(job, data.value, begin, m) else Finalizes(job, None, begin, m)
  }

  lemma MoreSteps(begin: Work, outs: seq<StepOutput>, out: StepOutput)
    ensures (outs + [out])[..|outs|] == outs
    ensures AllSteps(begin, outs + [out]) == AllSteps(begin, outs) + if out.moreSteps.Some? then out.moreSteps.value else []
    ensures ErrorsOf(outs + [out]) == ErrorsOf(outs) + out.errors
  {
    assert (outs + [out])[..|outs|] == outs;
  }

  lemma ExecutedMore(job: StatefulJob, data: Data, begin: Work, outs: seq<StepOutput>, out: StepOutput, k: nat)
    requires k < |outs| < |AllSteps(begin, outs)| && Executed(job, data, begin, outs, k)
    ensures |outs + [out]| <= |AllSteps(begin, outs + [out])| && Executed(job, data, begin, outs + [out], k)
  {
    MoreSteps(begin, outs, out);
    assert (outs + [out])[..k] == outs[..k];
    hide AllSteps, Folded;
  }

  lemma StepsMore(all: seq<Step>, n: nat, more: seq<Step>)
    requires n < |all|
    ensures (all + more)[n + 1..] == all[n..][1..] + more && (all + more)[..n + 1] == all[..n] + [all[n]]
  {
    assert all[n..][1..] == all[n + 1..];
    assert (all + more)[n + 1..] == all[n + 1..] + more;
  }

  lemma PerformsMore(job: StatefulJob, data: Data, begin: Work, outs: seq<StepOutput>, now: Work, out: StepOutput)
    requires Performs(job, data, begin, outs, now) && now.steps != []
    requires job.execute(now.steps[0], now.stepNumber, data, now.metadata) == StepDone(out)
    ensures Performs(job, data, begin, outs + [out], ApplyOutput(job, now, out))
  {
    var n, outs', all := |outs|, outs + [out], AllSteps(begin, outs);
    MoreSteps(begin, outs, out);
    var all' := AllSteps(begin, outs');
    forall k | 0 <= k < n + 1 ensures Executed(job, data, begin, outs', k) {
      if k < n {
        ExecutedMore(job, data, begin, outs, out, k);
      }
    }
    assert Numbered(all'[..n + 1], begin.stepNumber) == Numbered(all[..n], begin.stepNumber) + [(all[n], begin.stepNumber + n)];
    assert Folded(job, begin.metadata, outs') == ApplyOutput(job, now, out).metadata;
    assert |Added(outs')| == |Added(outs)| + |all'| - |all|;
    StepsMore(all, n, if out.moreSteps.Some? then out.moreSteps.value else []);
    hide AllSteps, Added, Folded, ErrorsOf, Executed, Numbered;
  }

  lemma PerformsNone(job: StatefulJob, data: Data, begin: Work)
    ensures Performs(job, data, begin, [], begin)
  {
    assert begin.steps + [] == begin.steps && begin.errors + [] == begin.errors && begin.completed + [] == begin.completed;
  }

  /** One more step, whatever it gives. */
  lemma StepIsExplained(job: StatefulJob, data: Data, begin: Work, outs: seq<StepOutput>, now: Work)
    requires Performs(job, data, begin, outs, now) && now.steps != []
    ensures Explained(job, data, begin, ApplyStep(job, data, now))
  {
    var r := ApplyStep(job, data, now);
    match job.execute(now.steps[0], now.stepNumber, data, now.metadata) {
      case StepDone(out) =>
        PerformsMore(job, data, begin, outs, now, out);
        assert Explains(job, data, begin, outs + [out], ApplyOutput(job, now, out), r);
      case EarlyFinish => assert Explains(job, data, begin, outs, now, r);
      case StepError(_) => assert Explains(job, data, begin, outs, now, r);
    }
  }

  lemma BeginIsExplained(job: StatefulJob, data: Data, begin: Work)
    ensures Explained(job, data, begin, Continue(job, data, begin))
  {
    PerformsNone(job, data, begin);
    assert Explains(job, data, begin, [], begin, Continue(job, data, begin));
  }

  lemma ReactionIsExplained(job: StatefulJob, data: Data, begin: Work, m: Machine, message: Message)
    requires Explained(job, data, begin, m)
    ensures Live(m) && Explained(job, data, begin, React(job, m, message))
  {
    var outs, now :| Explains(job, data, begin, outs, now, m);
    if m.Stepping? && m.mode == Running && message.TaskResult? {
      StepIsExplained(job, data, begin, outs, now);
    } else {
      assert Explains(job, data, begin, outs, now, React(job, m, message));
    }
  }

  lemma {:induction false} DriveIsExplained(job: StatefulJob, data: Data, begin: Work, m: Machine, messages: seq<Message>)
    requires Explained(job, data, begin, m)
    ensures Live(m) && Explained(job, data, begin, Drive(job, m, messages))
    decreases |messages|
  {
    var outs, now :| Explains(job, data, begin, outs, now, m);
    if messages != [] {
      ReactionIsExplained(job, data, begin, m, messages[0]);
      DriveIsExplained(job, data, begin, React(job, m, messages[0]), messages[1..]);
    }
  }

  lemma {:induction false} UninterruptedIsExplained(job: StatefulJob, data: Data, begin: Work, m: Machine, n: nat)
    requires Explained(job, data, begin, m)
    ensures Live(m) && Explained(job, data, begin, Uninterrupted(job, m, n))
    decreases n
  {
    var outs, now :| Explains(job, data, begin, outs, now, m);
    if n > 0 && m.Stepping? {
      StepIsExplained(job, data, begin, outs, now);
      UninterruptedIsExplained(job, data, begin, ApplyStep(job, m.data, m.work), n - 1);
    }
  }

  lemma BeginRunsJob(job: StatefulJob, state: JobState)
    ensures RunsJob(job, state, Begin(job, state))
  {
    if state.data.Some? {
      BeginIsExplained(job, state.data.value, Fresh(state));
    } else {
      var (data, result) := job.init();
      if result.InitDone? && data.Some? {
        var begin := Work(result.steps, state.stepNumber, job.update(state.runMetadata, result.metadata), result.errors, [], 0);
        BeginIsExplained(job, data.value, begin);
      }
    }
  }

  lemma {:induction false} InitRunsJob(job: StatefulJob, state: JobState, m: Machine, messages: seq<Message>)
    requires state.data.None? && m.Initializing? && m.state == state
    ensures RunsJob(job, state, Drive(job, m, messages))
    decreases |messages|
  {
    if messages != [] {
      var next := React(job, m, messages[0]);
      if next.Initializing? {
        InitRunsJob(job, state, next, messages[1..]);
      } else if next.Over? {
        OverIsFinal(job, next, messages[1..]);
        BeginRunsJob(job, state);
      } else {
        BeginRunsJob(job, state);
        var (data, result) := job.init();
        var begin := Work(result.steps, state.stepNumber, job.update(state.runMetadata, result.metadata), result.errors, [], 0);
        DriveIsExplained(job, data.value, begin, next, messages[1..]);
      }
    }
  }

  /** Every session does what the callbacks say, whatever its messages. */
  lemma SessionRunsJob(job: StatefulJob, state: JobState, messages: seq<Message>)
    ensures RunsJob(job, state, Drive(job, Start(job, state), messages))
  {
    if state.data.Some? {
      BeginIsExplained(job, state.data.value, Fresh(state));
      DriveIsExplained(job, state.data.value, Fresh(state), Start(job, state), messages);
    } else {
      InitRunsJob(job, state, Start(job, state), messages);
    }
  }

  /** So does the uninterrupted run, and with it any schedule of sessions. */
  lemma UninterruptedRunsJob(job: StatefulJob, state: JobState, n: nat)
    ensures RunsJob(job, state, Uninterrupted(job, Begin(job, state), n))
  {
    BeginRunsJob(job, state);
    var begin := Begin(job, state);
    if begin.Stepping? {
      var work := if state.data.Some? then Fresh(state)
                  else Work(job.init().1.steps, state.stepNumber, job.update(state.runMetadata, job.init().1.metadata), job.init().1.errors, [], 0);
      UninterruptedIsExplained(job, begin.data, work, begin, n);
    }
  }

  /* ----- why a run ends ----- */

  /** What a message, looked at by a machine that is not over, can end it with. */
  ghost predicate Causes(before: Machine, message: Message, outcome: Outcome) {
    match outcome
    case Canceled(reply) =>
      message == NewCommand(Cancel(reply)) || (before.Initializing? && message == NewCommand(Shutdown(reply)))
    case Interrupted(_, _, reply) => before.Stepping? && message == NewCommand(Shutdown(reply))
    case TimedOut(reply) => message == NewCommand(Timeout(reply))
    case Panicked => message == TaskPanicked && !before.Over? && before.mode == Running
    case ChannelLost => message == CommandsClosed && !before.Over? && before.mode == Paused
    case _ => message == TaskResult && !before.Over? && before.mode == Running
  }

  /** Every end has its own cause: one message, the last that was looked at. */
  lemma {:induction false} EndHasCause(job: StatefulJob, m: Machine, messages: seq<Message>) returns (k: nat)
    requires Live(m) && !m.Over? && Drive(job, m, messages).Over?
    ensures k < |messages| && !Drive(job, m, messages[..k]).Over?
    ensures Causes(Drive(job, m, messages[..k]), messages[k], Drive(job, m, messages).outcome)
    decreases |messages|
  {
    var next := React(job, m, messages[0]);
    if next.Over? {
      OverIsFinal(job, next, messages[1..]);
      k := 0;
    } else {
      k := EndHasCause(job, next, messages[1..]);
      k := k + 1;
      assert messages[..k][0] == messages[0] && messages[..k][1..] == messages[1..][..k - 1];
    }
  }

  /** Told by the messages alone: the last Pause has not been resumed. */
  ghost predicate PausedAfter(messages: seq<Message>) {
    exists k :: 0 <= k < |messages| && messages[k] == NewCommand(Pause)
                && forall j :: k < j < |messages| ==> messages[j] != NewCommand(Resume)
  }

  lemma DriveLast(job: StatefulJob, m: Machine, messages: seq<Message>, k: nat)
    requires Live(m) && k < |messages|
    ensures Drive(job, m, messages[..k + 1]) == React(job, Drive(job, m, messages[..k]), messages[k])
  {
    assert messages[..k + 1] == messages[..k] + [messages[k]];
    RunAppend(job, m, messages[..k], [messages[k]]);
    var front := Drive(job, m, messages[..k]);
    assert Drive(job, front, [messages[k]]) == Drive(job, React(job, front, messages[k]), []);
  }

  lemma PausedAfterLast(messages: seq<Message>, k: nat)
    requires k < |messages|
    ensures PausedAfter(messages[..k + 1])
            <==> messages[k] == NewCommand(Pause) || (PausedAfter(messages[..k]) && messages[k] != NewCommand(Resume))
  {
    var front, all := messages[..k], messages[..k + 1];
    assert all == front + [messages[k]];
    if messages[k] == NewCommand(Pause) {
      assert all[k] == NewCommand(Pause);
    } else if PausedAfter(front) && messages[k] != NewCommand(Resume) {
      var i :| 0 <= i < |front| && front[i] == NewCommand(Pause) && forall j :: i < j < |front| ==> front[j] != NewCommand(Resume);
      assert all[i] == NewCommand(Pause);
    }
    if PausedAfter(all) && messages[k] != NewCommand(Pause) {
      var i :| 0 <= i < |all| && all[i] == NewCommand(Pause) && forall j :: i < j < |all| ==> all[j] != NewCommand(Resume);
      assert all[k] == messages[k] && front[i] == NewCommand(Pause);
      assert forall j :: i < j < |front| ==> front[j] == all[j];
    }
  }

  /** A job is paused exactly if its commands say so. */
  lemma {:induction false} ModeFollowsCommands(job: StatefulJob, m: Machine, messages: seq<Message>, k: nat)
    requires Live(m) && !m.Over? && m.mode == Running && k <= |messages| && !Drive(job, m, messages[..k]).Over?
    ensures Drive(job, m, messages[..k]).mode == Paused <==> PausedAfter(messages[..k])
    decreases k
  {
    if k > 0 {
      DriveLast(job, m, messages, k - 1);
      PausedAfterLast(messages, k - 1);
      ModeFollowsCommands(job, m, messages, k - 1);
      hide PausedAfter, Drive;
    }
  }

  /** What a message does to a job that is not over: the commands that end it do so at once, paused or not. */
  ghost predicate Heeds(paused: bool, before: Machine, message: Message, after: Machine) {
    match message
    case TaskResult =>
      if paused then after == before
      else after.Over? || (after.Stepping? && (before.Stepping? ==> |after.work.completed| == |before.work.completed| + 1))
    case TaskPanicked => if paused then after == before else after == Over(Panicked)
    case CommandsClosed => if paused then after == Over(ChannelLost) else after == before
    case NewCommand(command) =>
      match command
      case Cancel(reply) => after == Over(Canceled(reply))
      case Timeout(reply) => after == Over(TimedOut(reply))
      case Shutdown(reply) =>
        after.Over? && if before.Initializing? then after.outcome == Canceled(reply) else after.outcome.Interrupted? && after.outcome.reply == reply
      case _ => !after.Over? && (before.Stepping? ==> after.Stepping? && after.data == before.data && after.work == before.work)
  }

  /** Every message is heeded, whatever came before it, in a session that starts running. */
  lemma MessagesAreHeeded(job: StatefulJob, m: Machine, messages: seq<Message>, k: nat)
    requires Live(m) && !m.Over? && m.mode == Running && k < |messages| && !Drive(job, m, messages[..k]).Over?
    ensures Heeds(PausedAfter(messages[..k]), Drive(job, m, messages[..k]), messages[k], Drive(job, m, messages[..k + 1]))
  {
    ModeFollowsCommands(job, m, messages, k);
    DriveLast(job, m, messages, k);
    hide PausedAfter, Drive;
  }

  /* ----- the loops the program runs ----- */

  /** How one phase, initialization or a single step, ends. */
  datatype Phase = ResultTaken | Ended(outcome: Outcome) | ShutDown(reply: nat) | StillWaiting(mode: Mode)

  /** Where the machine gets to when a phase that began at `current` ends this way with `rest` still to come. */
  function AfterPhase(job: StatefulJob, current: Machine, phase: Phase, rest: seq<Message>): Machine
    requires !current.Over? && Live(current)
  {
    match phase
    case ResultTaken => Drive(job, React(job, current, TaskResult), rest)
    case Ended(outcome) => Over(outcome)
    case ShutDown(reply) => React(job, current, NewCommand(Shutdown(reply)))
    case StillWaiting(mode) => SetMode(current, mode)
  }

  class Job {
    var state: Option<JobState>

    constructor (state: JobState)
      ensures this.state == Some(state)
    {
      this.state := Some(state);
    }

    /**
     Both command loops: `messages` are looked at from `from` on until the task's result is taken
     or a command ends the job. While paused, the inner loop only looks at commands.
     */
    static method HandlePhase(job: StatefulJob, messages: seq<Message>, from: nat, ghost current: Machine)
      returns (phase: Phase, at: nat)
      requires from <= |messages| && !current.Over? && Live(current) && current.mode == Running
      ensures from <= at <= |messages|
      ensures phase.ResultTaken? ==> from < at
      ensures Drive(job, current, messages[from..]) == AfterPhase(job, current, phase, messages[at..])
    {
      at := from;
      var mode := Running;
      while at < |messages|
        invariant from <= at <= |messages|
        invariant mode == Running ==> Drive(job, current, messages[from..]) == Drive(job, current, messages[at..])
        invariant mode == Paused ==> at == |messages| && Drive(job, current, messages[from..]) == SetMode(current, Paused)
      {
        var message := messages[at];
        assert messages[at..][0] == message && messages[at..][1..] == messages[at + 1..];
        at := at + 1;
        match message {
          case TaskResult => return ResultTaken, at;
          case TaskPanicked =>
            OverIsFinal(job, Over(Panicked), messages[at..]);
            return Ended(Panicked), at;
          case CommandsClosed =>
          case NewCommand(IdentifyYourself) =>
          case NewCommand(Resume) =>
          case NewCommand(Cancel(reply)) =>
            OverIsFinal(job, Over(Canceled(reply)), messages[at..]);
            return Ended(Canceled(reply)), at;
          case NewCommand(Timeout(reply)) =>
            OverIsFinal(job, Over(TimedOut(reply)), messages[at..]);
            return Ended(TimedOut(reply)), at;
          case NewCommand(Shutdown(reply)) =>
            OverIsFinal(job, React(job, current, message), messages[at..]);
            return ShutDown(reply), at;
          case NewCommand(Pause) =>
            ghost var paused := SetMode(current, Paused);
            mode := Paused;
            while at < |messages| && mode == Paused
              invariant from <= at <= |messages|
              invariant mode == Paused ==> Drive(job, current, messages[from..]) == Drive(job, paused, messages[at..])
              invariant mode == Running ==> Drive(job, current, messages[from..]) == Drive(job, current, messages[at..])
              decreases |messages| - at
            {
              var command := messages[at];
              assert messages[at..][0] == command && messages[at..][1..] == messages[at + 1..];
              at := at + 1;
              match command {
                case NewCommand(Resume) => mode := Running;
                case NewCommand(Cancel(reply)) =>
                  OverIsFinal(job, Over(Canceled(reply)), messages[at..]);
                  return Ended(Canceled(reply)), at;
                case NewCommand(Timeout(reply)) =>
                  OverIsFinal(job, Over(TimedOut(reply)), messages[at..]);
                  return Ended(TimedOut(reply)), at;
                case NewCommand(Shutdown(reply)) =>
                  OverIsFinal(job, React(job, paused, command), messages[at..]);
                  return ShutDown(reply), at;
                case CommandsClosed =>
                  OverIsFinal(job, Over(ChannelLost), messages[at..]);
                  return Ended(ChannelLost), at;
                case _ =>
              }
            }
            assert at == |messages| ==> messages[at..] == [];
        }
      }
      assert messages[at..] == [];
      return StillWaiting(mode), at;
    }

    /** The loop over the step queue, and the end of the job. */
    static method RunSteps(
        job: StatefulJob, messages: seq<Message>, from: nat, workingData: Option<Data>, shouldRun: bool, ghost begin: Work,
        firstSteps: seq<Step>, firstNumber: nat, firstMetadata: Metadata, firstErrors: seq<string>)
      returns (m: Machine)
      requires from <= |messages| && begin == Work(firstSteps, firstNumber, firstMetadata, firstErrors, [], 0)
      ensures m == Drive(job,
                         if shouldRun && workingData.Some? then Continue(job, workingData.value, begin) else Finish(job, workingData, begin),
                         messages[from..])
    {
      var at: nat := from;
      var steps, stepNumber, metadata, errors := firstSteps, firstNumber, firstMetadata, firstErrors;
      var completed: seq<(Step, nat)>, added: nat, running := [], 0, shouldRun;
      if workingData.Some? {
        var data := workingData.value;
        while running && steps != []
          invariant at <= |messages|
          invariant Drive(job, if shouldRun then Continue(job, data, begin) else Finish(job, workingData, begin), messages[from..]) ==
                    Drive(job,
                          if running
                          then Continue(job, data, Work(steps, stepNumber, metadata, errors, completed, added))
                          else Finish(job, workingData, Work(steps, stepNumber, metadata, errors, completed, added)),
                          messages[at..])
          decreases running, |messages| - at
        {
          ghost var work := Work(steps, stepNumber, metadata, errors, completed, added);
          var step := steps[0];
          steps := steps[1..];
          assert work.steps == [step] + steps;
          var phase, next := HandlePhase(job, messages, at, Stepping(Running, data, work));
          match phase {
            case Ended(outcome) => return Over(outcome);
            case ShutDown(reply) =>
              // taking back the step, so that it can run to completion later
              steps := [step] + steps;
              return Over(Interrupted(data, Work(steps, stepNumber, metadata, errors, completed, added), reply));
            case StillWaiting(mode) =>
              return Stepping(mode, data, Work([step] + steps, stepNumber, metadata, errors, completed, added));
            case ResultTaken => at := next;
          }
          match job.execute(step, stepNumber, data, metadata) {
            case StepDone(StepOutput(moreSteps, moreMetadata, newErrors)) =>
              assert steps + [] == steps;
              if moreSteps.Some? {
                steps := steps + moreSteps.value;
                added := added + |moreSteps.value|;
              }
              if moreMetadata.Some? {
                metadata := job.update(metadata, moreMetadata.value);
              }
              errors := errors + newErrors;
              completed := completed + [(step, stepNumber)];
              stepNumber := stepNumber + 1;
            case EarlyFinish => running := false;
            case StepError(failure) =>
              OverIsFinal(job, Over(Failed(failure)), messages[at..]);
              return Over(Failed(failure));
          }
        }
      }
      var finished := Work(steps, stepNumber, metadata, errors, completed, added);
      m := match job.finalize(workingData, metadata)
           case Ok(output) => Over(Finished(output, workingData, finished))
           case Err(failure) => Over(FinalizeFailed(failure));
      OverIsFinal(job, m, messages[at..]);
    }

    /** `run`: what it comes to is the fold of the machine over the messages, and what the callbacks say. */
    method Run(job: StatefulJob, messages: seq<Message>) returns (m: Machine)
      requires state.Some?
      modifies this
      ensures state == None
      ensures m == Drive(job, Start(job, old(state).value), messages)
      ensures RunsJob(job, old(state).value, m)
    {
      SessionRunsJob(job, state.value, messages);
      hide RunsJob;
      var saved := state.value;
      state := None;
      assert messages[0..] == messages;
      if saved.data.Some? {
        m := RunSteps(job, messages, 0, saved.data, true, Fresh(saved), saved.steps, saved.stepNumber, saved.runMetadata, []);
        return;
      }
      var phase, at := HandlePhase(job, messages, 0, Initializing(Running, saved));
      match phase {
        case Ended(outcome) => return Over(outcome);
        case ShutDown(reply) => return Over(Canceled(reply));
        case StillWaiting(mode) => return Initializing(mode, saved);
        case ResultTaken =>
      }
      var (data, output) := job.init();
      match output {
        case InitDone(metadata, steps, errors) =>
          var updated := job.update(saved.runMetadata, metadata);
          m := RunSteps(job, messages, at, data, true, Work(steps, saved.stepNumber, updated, errors, [], 0),
                        steps, saved.stepNumber, updated, errors);
        case InitEarlyFinish =>
          m := RunSteps(job, messages, at, data, false, Fresh(saved), saved.steps, saved.stepNumber, saved.runMetadata, []);
        case InitError(failure) =>
          m := Over(Failed(failure));
          OverIsFinal(job, m, messages[at..]);
      }
    }
  }
}
