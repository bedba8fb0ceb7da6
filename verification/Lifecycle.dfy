/** What the step system promises over whole runs: any number of jobs, worker loops, cancellations,
    retries, crashes, recoveries and sweeps, in any order. */
module Lifecycle {
  import opened Wrappers
  import opened Sums
  import opened Rows
  import opened Dispatch
  import opened System

  // ---------- single states ----------

  /** What a finished job says about its runs. */
  lemma TerminalJobs(limit: nat, steps: seq<Step>, j: JobId)
    requires j in Exec(Init(limit), steps).jobs
    ensures var job := Exec(Init(limit), steps).jobs[j];
            && (job.status.Terminal() ==> !Has(job, Running) && !Has(job, Interrupted))
            && (job.status.Terminal() && job.status != Canceled ==> AllTerminal(job))
            && (job.status == Completed ==> !Has(job, Failed))
            && (job.status == CompletedWithWarnings ==> Has(job, Done) && Has(job, Failed))
            && (job.status == JobFailed ==> Has(job, Failed))
            && (job.status.Terminal() && job.status != Canceled
                && (forall i :: 0 <= i < |job.runs| ==> job.runs[i].errorCode != Some("deny_list_seed_failed")) ==>
                  && (job.status == Completed <==> !Has(job, Failed))
                  && (job.status == CompletedWithWarnings <==> Has(job, Done) && Has(job, Failed))
                  && (job.status == JobFailed <==> Has(job, Failed) && !Has(job, Done)))
  {
    var s := Exec(Init(limit), steps);
    Reachable(limit, steps);
    var job := s.jobs[j];
    assert JobOk(s.limit, s.phase, job, StageOf(s, j));
    if job.status.Terminal() {
      assert TerminalOk(job);
      if job.status != Canceled {
        forall i | 0 <= i < |job.runs| ensures job.runs[i].status != Running && job.runs[i].status != Interrupted {
          assert job.runs[i].status.Terminal();
        }
      }
    }
  }

  /** What a dispatch leaves when it finalizes, told from the runs and the call's own event alone. */
  lemma FinalStatus(limit: nat, before: seq<Step>, t: nat, now: int, id: int)
    requires var s := Exec(Init(limit), before);
             && s.phase == Up && t in s.calls && s.calls[t].job in s.jobs
             && MoveJob(s.limit, s.calls[t].cancelled, s.calls[t].stage, s.jobs[s.calls[t].job], Finalize(now, id)).Some?
    ensures var s := Exec(Init(limit), before); var j := s.calls[t].job;
            var s' := Next(s, Advance(t, Finalize(now, id)));
            && j in s'.jobs && s'.jobs[j].runs == s.jobs[j].runs && AllTerminal(s'.jobs[j])
            && (s'.jobs[j].status == Canceled <==> s.calls[t].cancelled)
            && (!s.calls[t].cancelled ==>
                  && (s'.jobs[j].status == Completed <==> !Has(s'.jobs[j], Failed))
                  && (s'.jobs[j].status == CompletedWithWarnings <==> Has(s'.jobs[j], Done) && Has(s'.jobs[j], Failed))
                  && (s'.jobs[j].status == JobFailed <==> Has(s'.jobs[j], Failed) && !Has(s'.jobs[j], Done)))
            && s'.jobs[j].finishedAt == Some(now)
            && s'.jobs[j].events == s.jobs[j].events + [Event(id, None, JobFinished(s'.jobs[j].status))]
  {
    var s := Exec(Init(limit), before);
    var job := s.jobs[s.calls[t].job];
    StatusesHas(job, Done);
    StatusesHas(job, Failed);
    assert Reached(s);
    DrivenRow(s, t);
    forall i | 0 <= i < |job.runs| ensures job.runs[i].status.Terminal() {
      assert Agrees(s.calls[t].stage.progress[i], job.runs[i]);
    }
  }

  /** No two calls of `run_job` ever drive one job, and a QUEUED job is driven by none. */
  lemma ExclusiveDispatch(limit: nat, steps: seq<Step>, t: nat, u: nat)
    ensures var s := Exec(Init(limit), steps);
            && (t in s.calls && u in s.calls && s.calls[t].job == s.calls[u].job ==> t == u)
            && (t in s.calls && s.calls[t].job in s.jobs ==> s.jobs[s.calls[t].job].status != JobQueued)
  {
    var s := Exec(Init(limit), steps);
    Reachable(limit, steps);
    if t in s.calls {
      assert CallOk(s, t);
    }
    if u in s.calls { assert CallOk(s, u); }
  }

  /** The event log accounts for every attempt: all of them, and those still open. */
  lemma AttemptsAreLogged(limit: nat, steps: seq<Step>, j: JobId, name: string)
    requires j in Exec(Init(limit), steps).jobs
    ensures var job := Exec(Init(limit), steps).jobs[j];
            && Sum(job.runs, AttemptsOf(name)) == Sum(job.events, StartedBy(name))
            && Sum(job.events, StartedBy(name)) - Sum(job.events, FinishedBy(name))
               == Sum(job.runs, RunningOf(name)) + Sum(job.runs, InterruptionsOf(name))
  {
    var s := Exec(Init(limit), steps);
    Reachable(limit, steps);
    assert JobOk(s.limit, s.phase, s.jobs[j], StageOf(s, j));
    assert LedgerFor(s.jobs[j], name);
    SumSplit(s.jobs[j].runs, OpenOf(name), RunningOf(name), InterruptionsOf(name));
  }

  /** At most `max_concurrent_collectors_per_job` immediate runs are RUNNING, at most one deferred run
      is, and the two kinds never overlap. */
  lemma ConcurrencyBound(limit: nat, steps: seq<Step>, j: JobId)
    requires j in Exec(Init(limit), steps).jobs
    requires Exec(Init(limit), steps).phase == Up
    ensures var job := Exec(Init(limit), steps).jobs[j];
            && Sum(job.runs, RunningImmediate()) <= limit
            && Sum(job.runs, RunningDeferred()) <= 1
            && (Sum(job.runs, RunningDeferred()) > 0 ==> Sum(job.runs, RunningImmediate()) == 0)
  {
    var s := Exec(Init(limit), steps);
    Reachable(limit, steps);
    LimitIsFixed(Init(limit), steps);
    var job := s.jobs[j];
    assert JobOk(s.limit, s.phase, job, StageOf(s, j));
    match StageOf(s, j)
    case Some(Dispatching(progress, _)) =>
      if Sum(job.runs, RunningDeferred()) > 0 {
        if NoDeferredInFlight(job, progress) {
          NoRunningDeferred(job, progress);
        }
        assert DeferredBegun(job, progress);
        forall i | 0 <= i < |job.runs| ensures RunningImmediate()(job.runs[i]) == 0 {
          assert Agrees(progress[i], job.runs[i]);
        }
        SumZero(job.runs, RunningImmediate());
      }
    case _ =>
      NoneRunning(s, j);
      forall i | 0 <= i < |job.runs|
        ensures RunningImmediate()(job.runs[i]) == 0 && RunningDeferred()(job.runs[i]) == 0
      {
        assert job.runs[i].status != Running;
      }
      SumZero(job.runs, RunningImmediate());
      SumZero(job.runs, RunningDeferred());
  }

  lemma NoneRunning(s: System, j: JobId)
    requires Reached(s) && s.phase == Up && j in s.jobs
    requires StageOf(s, j).Some? ==> !StageOf(s, j).value.Dispatching?
    ensures !Has(s.jobs[j], Running)
  {
    var job := s.jobs[j];
    RowOf(s, j);
    match StageOf(s, j)
    case None =>
    case Some(Finished) =>
      if job.status != Canceled {
        forall i | 0 <= i < |job.runs| ensures job.runs[i].status != Running {
          assert job.runs[i].status.Terminal();
        }
      }
    case _ =>
  }

  lemma {:induction false} LimitIsFixed(s: System, steps: seq<Step>)
    ensures Exec(s, steps).limit == s.limit
    decreases |steps|
  {
    if steps != [] {
      LimitIsFixed(Next(s, steps[0]), steps[1..]);
    }
  }

  /** Once a technology run has begun, every other kind of run is terminal and nothing of it is
      waiting to be recorded. */
  lemma DeferredRunsLast(limit: nat, steps: seq<Step>, t: nat, r: nat)
    requires var s := Exec(Init(limit), steps);
             && t in s.calls && s.calls[t].stage.Dispatching?
             && r < |s.calls[t].stage.progress|
             && s.calls[t].stage.progress[r] != NotPending && s.calls[t].stage.progress[r] != Waiting
             && s.calls[t].job in s.jobs && r < |s.jobs[s.calls[t].job].runs| && s.jobs[s.calls[t].job].runs[r].collector == "technology"
    ensures var s := Exec(Init(limit), steps); var job := s.jobs[s.calls[t].job];
            forall q :: 0 <= q < |job.runs| && job.runs[q].collector != "technology" ==>
              job.runs[q].status.Terminal() && job.runs[q].unrecorded == 0
  {
    var s := Exec(Init(limit), steps);
    Reachable(limit, steps);
    var job := s.jobs[s.calls[t].job];
    var progress := s.calls[t].stage.progress;
    assert JobOk(s.limit, s.phase, job, StageOf(s, s.calls[t].job));
    assert DeferredBegun(job, progress);
    forall q | 0 <= q < |job.runs| && !Deferred(job.runs[q])
      ensures job.runs[q].status.Terminal() && job.runs[q].unrecorded == 0
    {
      assert Agrees(progress[q], job.runs[q]) && RunOk(job.runs[q]);
    }
  }

  /** After recovery nothing is RUNNING, and a RUNNING job that is not resumed has nothing left to run. */
  lemma AfterRecovery(limit: nat, steps: seq<Step>, j: JobId)
    requires var s := Exec(Init(limit), steps); s.phase == Down && j in s.jobs
    ensures var s' := Next(Exec(Init(limit), steps), RecoverRows);
            && j in s'.jobs && !Has(s'.jobs[j], Running)
            && (s'.jobs[j].status == JobRunning && !Resumable(s', j) ==> AllTerminal(s'.jobs[j]))
  {
    var s := Exec(Init(limit), steps);
    Reachable(limit, steps);
    NextKeepsInv(s, RecoverRows);
    var s' := Next(s, RecoverRows);
    var job' := s'.jobs[j];
    forall i | 0 <= i < |job'.runs| ensures job'.runs[i].status != Running {
      assert job'.runs[i] == InterruptRun(s.jobs[j].runs[i]);
    }
    if job'.status == JobRunning && !Resumable(s', j) {
      forall i | 0 <= i < |job'.runs| ensures job'.runs[i].status.Terminal() {
        assert !job'.runs[i].status.Pending();
      }
    }
  }

  lemma IdsAscend(limit: nat, history: seq<Step>, j: JobId)
    requires j in Exec(Init(limit), history).jobs
    ensures Newer(Exec(Init(limit), history).jobs[j], NextId(Exec(Init(limit), history).jobs[j]))
  {
    var s := Exec(Init(limit), history);
    Reachable(limit, history);
    assert JobOk(s.limit, s.phase, s.jobs[j], StageOf(s, j));
  }

  // ---------- one job over a run ----------

  /** How a job's rows may change while the job exists: its runs keep their places and names, its log
      and its findings only grow at the end, a DONE run is never touched again. */
  predicate RunGrows(run: Run, run': Run) {
    && run'.collector == run.collector
    && run.attempts <= run'.attempts
    && run.orphaned <= run'.orphaned
    && (run.status == Done ==> run' == run)
  }

  predicate Grows(job: Job, job': Job) {
    && |job'.runs| == |job.runs|
    && (forall i :: 0 <= i < |job.runs| ==> RunGrows(job.runs[i], job'.runs[i]))
    && job.events <= job'.events
    && job.findings <= job'.findings
  }

  lemma CollectorGrows(cancelled: bool, progress: seq<Progress>, permits: nat, job: Job, move: Move)
    requires |progress| == |job.runs| && forall i :: 0 <= i < |progress| ==> Agrees(progress[i], job.runs[i])
    requires MoveCollector(cancelled, progress, permits, job, move).Some?
    ensures Grows(job, MoveCollector(cancelled, progress, permits, job, move).value.0)
  {
    var job' := MoveCollector(cancelled, progress, permits, job, move).value.0;
    forall i | 0 <= i < |job.runs| ensures RunGrows(job.runs[i], job'.runs[i]) {
      assert Agrees(progress[i], job.runs[i]);
    }
  }

  lemma FailBeforeDispatchGrows(job: Job, pending: set<nat>, now: int, id: int)
    requires pending == PendingRuns(job)
    ensures Grows(job, FailBeforeDispatch(job, pending, now, id))
  {
    var job' := FailBeforeDispatch(job, pending, now, id);
    forall i | 0 <= i < |job.runs| ensures RunGrows(job.runs[i], job'.runs[i]) {
      assert i in pending ==> job.runs[i].status.Pending();
    }
  }

  lemma MoveGrows(limit: nat, cancelled: bool, job: Job, stage: Stage, move: Move)
    requires StatusOk(Up, job, Some(stage))
    requires MoveJob(limit, cancelled, stage, job, move).Some?
    ensures Grows(job, MoveJob(limit, cancelled, stage, job, move).value.0)
  {
    match stage
    case Loading =>
    case Seeding(pending) => if move.SeedFails? { FailBeforeDispatchGrows(job, pending, move.now, move.id); }
    case Dispatching(progress, permits) => CollectorGrows(cancelled, progress, permits, job, move);
    case Finished =>
  }

  lemma QuietRuns(s: System, j: JobId, i: nat)
    requires Reached(s) && j in s.jobs && i < |s.jobs[j].runs|
    ensures RunOk(s.jobs[j].runs[i])
  {
    RowOf(s, j);
  }

  lemma KillGrows(s: System, j: JobId)
    requires Reached(s) && j in s.jobs
    ensures Grows(s.jobs[j], Crash(s.jobs[j]))
  {
    forall i | 0 <= i < |s.jobs[j].runs| ensures RunGrows(s.jobs[j].runs[i], Crash(s.jobs[j]).runs[i]) {
      QuietRuns(s, j, i);
    }
  }

  lemma AdvanceGrows(s: System, t: nat, move: Move)
    requires Reached(s) && s.phase == Up && t in s.calls && s.calls[t].job in s.jobs
    ensures s.calls[t].job in Next(s, Advance(t, move)).jobs
    ensures Grows(s.jobs[s.calls[t].job], Next(s, Advance(t, move)).jobs[s.calls[t].job])
  {
    var c := s.calls[t];
    AdvanceRow(s, t, move);
    if MoveJob(s.limit, c.cancelled, c.stage, s.jobs[c.job], move).Some? {
      DrivenRow(s, t);
      MoveGrows(s.limit, c.cancelled, s.jobs[c.job], c.stage, move);
    }
  }

  lemma AdvanceRow(s: System, t: nat, move: Move)
    requires s.phase == Up && t in s.calls && s.calls[t].job in s.jobs
    ensures var c := s.calls[t]; var job := s.jobs[c.job];
            && c.job in Next(s, Advance(t, move)).jobs
            && Next(s, Advance(t, move)).jobs[c.job] ==
                 (match MoveJob(s.limit, c.cancelled, c.stage, job, move) case Some(pair) => pair.0 case None => job)
  {
  }

  /** The steps that rewrite a given job's row. */
  predicate Touches(s: System, step: Step, j: JobId) {
    match step
    case Advance(t, _) => s.phase == Up && t in s.calls && s.calls[t].job == j
    case Claim(k, _) => k == j
    case Cancel(k, _, _) => k == j
    case Retry(k, _) => k == j
    case Kill => true
    case RecoverRows => true
    case _ => false
  }

  lemma NextGrows(s: System, step: Step, j: JobId)
    requires Reached(s) && j in s.jobs && j in Next(s, step).jobs
    ensures Grows(s.jobs[j], Next(s, step).jobs[j])
  {
    if !Touches(s, step, j) {
      RowIsUsed(s, j);
    } else if step.Advance? {
      AdvanceGrows(s, step.t, step.move);
    } else {
      if step.Kill? { KillGrows(s, j); }
      OthersGrow(s, step, j);
    }
  }

  lemma OthersGrow(s: System, step: Step, j: JobId)
    requires j in s.jobs && j in Next(s, step).jobs && Touches(s, step, j) && !step.Advance?
    requires step.Kill? ==> Grows(s.jobs[j], Crash(s.jobs[j]))
    requires step.Retry? && RetryAccepts(s, j, step.name) ==> Grows(s.jobs[j], RequeueRun(s.jobs[j], TheRun(s.jobs[j], step.name)))
    ensures Grows(s.jobs[j], Next(s, step).jobs[j])
  {
  }

  /** A job id that is gone stays gone. */
  lemma {:induction false} GoneStaysGone(s: System, steps: seq<Step>, j: JobId)
    requires j in s.used && j !in s.jobs
    ensures j !in Exec(s, steps).jobs
    decreases |steps|
  {
    if steps != [] {
      GoneStaysGone(Next(s, steps[0]), steps[1..], j);
    }
  }

  lemma {:induction false} ExecGrows(s: System, steps: seq<Step>, j: JobId)
    requires Reached(s) && j in s.jobs && j in Exec(s, steps).jobs
    ensures Grows(s.jobs[j], Exec(s, steps).jobs[j])
    decreases |steps|
  {
    if steps != [] {
      var s1 := Next(s, steps[0]);
      ReachedNext(s, steps[0]);
      if j !in s1.jobs {
        RowIsUsed(s, j);
        GoneStaysGone(s1, steps[1..], j);
      }
      NextGrows(s, steps[0], j);
      ExecGrows(s1, steps[1..], j);
    }
  }

  /** DONE is for the life of the job: same status, same count, no further attempt. */
  lemma DoneIsFinal(limit: nat, before: seq<Step>, steps: seq<Step>, j: JobId, r: nat)
    requires var s := Exec(Init(limit), before);
             && j in s.jobs && r < |s.jobs[j].runs| && s.jobs[j].runs[r].status == Done
             && j in Exec(s, steps).jobs
    ensures var s := Exec(Init(limit), before); var s' := Exec(s, steps);
            r < |s'.jobs[j].runs| && s'.jobs[j].runs[r] == s.jobs[j].runs[r]
  {
    var s := Exec(Init(limit), before);
    assert Reached(s);
    ExecGrows(s, steps, j);
    assert RunGrows(s.jobs[j].runs[r], Exec(s, steps).jobs[j].runs[r]);
  }

  // ---------- one call over a run ----------

  function Rank(stage: Stage): nat {
    match stage
    case Loading => 0
    case Seeding(_) => 1
    case Dispatching(_, _) => 2
    case Finished => 3
  }

  /** A run the call has not selected, or is through with, keeps its row; a selected one is started at
      most once, which is the only thing that adds an attempt. */
  predicate RunFollows(p: Progress, run: Run, p': Progress, run': Run) {
    && (p.Settled() ==> p' == p && run' == run)
    && (p'.Waiting? ==> p.Waiting?)
    && (!p'.NotPending? || p.NotPending?)
    && run'.collector == run.collector
    && run'.attempts == run.attempts + (if p.Waiting? && !p'.Waiting? then 1 else 0)
  }

  predicate StageFollows(stage: Stage, job: Job, stage': Stage, job': Job) {
    stage.Dispatching? && stage'.Dispatching? ==>
      && |job.runs| == |stage.progress| == |stage'.progress| == |job'.runs|
      && forall i :: 0 <= i < |stage.progress| ==> RunFollows(stage.progress[i], job.runs[i], stage'.progress[i], job'.runs[i])
  }

  predicate Follows(s: System, s': System, t: nat)
    requires t in s.calls && t in s'.calls
  {
    var c := s.calls[t]; var c' := s'.calls[t];
    && c'.job == c.job
    && (c.cancelled ==> c'.cancelled)
    && Rank(c.stage) <= Rank(c'.stage)
    && (c.job in s.jobs && c.job in s'.jobs ==> StageFollows(c.stage, s.jobs[c.job], c'.stage, s'.jobs[c.job]))
  }

  /** A move of one collector leaves every other run and its progress alone. */
  lemma OnlyOneMoves(cancelled: bool, progress: seq<Progress>, permits: nat, job: Job, move: Move)
    requires |progress| == |job.runs| && MoveCollector(cancelled, progress, permits, job, move).Some? && !move.Finalize?
    ensures var (job', stage') := MoveCollector(cancelled, progress, permits, job, move).value;
            && move.r < |progress| && stage'.Dispatching? && |job'.runs| == |stage'.progress| == |progress|
            && RunFollows(progress[move.r], job.runs[move.r], stage'.progress[move.r], job'.runs[move.r])
            && forall i :: 0 <= i < |progress| && i != move.r ==> stage'.progress[i] == progress[i] && job'.runs[i] == job.runs[i]
  {
  }

  lemma CollectorFollows(cancelled: bool, progress: seq<Progress>, permits: nat, job: Job, move: Move)
    requires |progress| == |job.runs| && MoveCollector(cancelled, progress, permits, job, move).Some?
    ensures var (job', stage') := MoveCollector(cancelled, progress, permits, job, move).value;
            && (stage'.Dispatching? || stage'.Finished?)
            && StageFollows(Dispatching(progress, permits), job, stage', job')
  {
    if !move.Finalize? { OnlyOneMoves(cancelled, progress, permits, job, move); }
  }

  lemma StageMoves(limit: nat, cancelled: bool, stage: Stage, job: Job, move: Move)
    requires MoveJob(limit, cancelled, stage, job, move).Some?
    ensures var (job', stage') := MoveJob(limit, cancelled, stage, job, move).value;
            Rank(stage) <= Rank(stage') && StageFollows(stage, job, stage', job')
  {
    if stage.Dispatching? { CollectorFollows(cancelled, stage.progress, stage.permits, job, move); }
  }

  lemma MoveFollows(s: System, t: nat, move: Move)
    requires s.phase == Up && t in s.calls && s.calls[t].job in s.jobs
    requires MoveJob(s.limit, s.calls[t].cancelled, s.calls[t].stage, s.jobs[s.calls[t].job], move).Some?
    ensures t in Next(s, Advance(t, move)).calls && Follows(s, Next(s, Advance(t, move)), t)
  {
    var c := s.calls[t];
    StageMoves(s.limit, c.cancelled, c.stage, s.jobs[c.job], move);
  }

  /** What a call that drives a job knows of it. */
  predicate Drives(s: System, t: nat) {
    && t in s.calls && CallOk(s, t) && s.calls[t].job in s.used && s.phase != Down
    && (s.calls[t].job in s.jobs ==>
          if s.calls[t].stage == Finished then s.jobs[s.calls[t].job].status.Terminal() else s.jobs[s.calls[t].job].status == JobRunning)
  }

  lemma CallDrives(s: System, t: nat)
    requires Reached(s) && t in s.calls
    ensures Drives(s, t)
  {
    InvOf(s);
    assert CallOk(s, t);
    if s.calls[t].job in s.jobs { DrivenRow(s, t); }
  }

  lemma OnlyThisCall(s: System, step: Step, t: nat)
    requires Reached(s) && t in s.calls && t in Next(s, step).calls && s.calls[t].job in s.jobs
    requires !step.Advance? || step.t != t
    ensures s.calls[t].job in Next(s, step).jobs ==>
              Next(s, step).jobs[s.calls[t].job] == s.jobs[s.calls[t].job]
    ensures Next(s, step).calls[t] == s.calls[t].(cancelled := Next(s, step).calls[t].cancelled)
    ensures s.calls[t].cancelled ==> Next(s, step).calls[t].cancelled
    ensures s.calls[t].stage != Finished ==> s.calls[t].job in Next(s, step).jobs
  {
    CallDrives(s, t);
    if step.Advance? && step.t in s.calls { CallOf(s, step.t); }
  }

  lemma NextFollows(s: System, step: Step, t: nat)
    requires Reached(s) && t in s.calls && t in Next(s, step).calls
    ensures Follows(s, Next(s, step), t)
  {
    var c := s.calls[t];
    if step.Advance? && step.t == t {
      if s.phase == Up && c.job in s.jobs && MoveJob(s.limit, c.cancelled, c.stage, s.jobs[c.job], step.move).Some? {
        MoveFollows(s, t, step.move);
      } else {
        FollowsItself(s, t);
      }
    } else if c.job in s.jobs {
      OnlyThisCall(s, step, t);
      FollowsItself(s, t);
    } else {
      GoneCall(s, step, t);
    }
  }

  lemma FollowsItself(s: System, t: nat)
    requires Reached(s) && t in s.calls
    ensures Follows(s, s, t)
  {
    if s.calls[t].job in s.jobs { DrivenRow(s, t); }
  }

  lemma GoneCall(s: System, step: Step, t: nat)
    requires Reached(s) && t in s.calls && t in Next(s, step).calls && s.calls[t].job !in s.jobs
    ensures Next(s, step).calls[t].job == s.calls[t].job && Next(s, step).calls[t].stage == Finished == s.calls[t].stage
    ensures s.calls[t].cancelled ==> Next(s, step).calls[t].cancelled
  {
    CallOf(s, t);
    if step.Advance? && step.t in s.calls { CallOf(s, step.t); }
  }

  /** A call that has left never comes back: numbers are not reused. */
  lemma {:induction false} LeftForGood(s: System, steps: seq<Step>, t: nat)
    requires t < s.nextCall && t !in s.calls
    ensures t !in Exec(s, steps).calls
    decreases |steps|
  {
    if steps != [] {
      LeftForGood(Next(s, steps[0]), steps[1..], t);
    }
  }

  lemma CallHasItsJob(s: System, t: nat)
    requires Reached(s) && t in s.calls
    ensures t < s.nextCall && (s.calls[t].stage != Finished ==> s.calls[t].job in s.jobs)
  {
    CallOf(s, t);
  }

  lemma {:induction false} ExecFollows(s: System, steps: seq<Step>, t: nat)
    requires Reached(s) && t in s.calls && t in Exec(s, steps).calls
    ensures Follows(s, Exec(s, steps), t)
    decreases |steps|
  {
    if steps == [] {
      FollowsItself(s, t);
    } else {
      var s1 := Next(s, steps[0]);
      ReachedNext(s, steps[0]);
      CallHasItsJob(s, t);
      if t !in s1.calls { LeftForGood(s1, steps[1..], t); }
      NextFollows(s, steps[0], t);
      ExecFollows(s1, steps[1..], t);
      CallHasItsJob(s1, t);
    }
  }

  /** Within one dispatch a run is started at most once, and a run the dispatch is not driving keeps its
      row until the dispatch ends: nothing can become pending behind its back. */
  lemma StartedAtMostOnce(limit: nat, before: seq<Step>, steps: seq<Step>, t: nat, r: nat)
    requires var s := Exec(Init(limit), before); var s' := Exec(s, steps);
             && t in s.calls && t in s'.calls
             && s.calls[t].stage.Dispatching? && s'.calls[t].stage.Dispatching?
             && s.calls[t].job in s.jobs && s.calls[t].job in s'.jobs
             && r < |s.calls[t].stage.progress|
    ensures var s := Exec(Init(limit), before); var s' := Exec(s, steps); var j := s.calls[t].job;
            && r < |s.jobs[j].runs| == |s'.jobs[j].runs|
            && s.jobs[j].runs[r].attempts <= s'.jobs[j].runs[r].attempts <= s.jobs[j].runs[r].attempts + 1
            && (s.calls[t].stage.progress[r] != Waiting ==> s'.jobs[j].runs[r].attempts == s.jobs[j].runs[r].attempts)
            && (s.calls[t].stage.progress[r].Settled() ==> s'.jobs[j].runs[r] == s.jobs[j].runs[r])
  {
    var s := Exec(Init(limit), before);
    assert Reached(s);
    ExecFollows(s, steps, t);
    var s' := Exec(s, steps);
    var j := s.calls[t].job;
    assert StageFollows(s.calls[t].stage, s.jobs[j], s'.calls[t].stage, s'.jobs[j]);
    assert RunFollows(s.calls[t].stage.progress[r], s.jobs[s.calls[t].job].runs[r],
                      s'.calls[t].stage.progress[r], s'.jobs[s.calls[t].job].runs[r]);
  }
}
