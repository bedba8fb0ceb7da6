/** One call of `run_job`: where each of its collectors stands, and the moves it can make next.
    Every move ends at the await that follows it, so other work may come between any two. */
module Dispatch {
  import opened Wrappers
  import opened Sums
  import opened Rows

  /** Where `_run_one_collector` stands for one run of the job. */
  datatype Progress =
    | NotPending                                                // not selected when the dispatch loaded the job
    | Waiting                                                   // selected, not started
    | Started                                                   // RUNNING is committed, nothing checked yet
    | Body                                                      // inside the collector's own code
    | Returned(batch: seq<string>)                              // findings in memory only
    | Persisted(count: nat)                                     // findings committed, status not yet
    | Closing(status: CollectorStatus, code: Option<string>)    // about to record a result without findings
    | Over
  {
    predicate InFlight() { !NotPending? && !Waiting? && !Over? }

    predicate Settled() { NotPending? || Over? }
  }

  datatype Stage =
    | Loading
    | Seeding(pending: set<nat>)
    | Dispatching(progress: seq<Progress>, permits: nat)
    | Finished

  datatype Move =
    | Load
    | SeedSucceeds
    | SeedFails(now: int, id: int)
    | Start(r: nat, id: int)
    | Reject(r: nat, known: bool)
    | Check(r: nat)
    | Raise(r: nat, status: CollectorStatus, code: string)
    | Return(r: nat, batch: seq<string>)
    | Persist(r: nat)
    | Finish(r: nat, id: int)
    | Finalize(now: int, id: int)

  /** `gather` has returned: no immediate collector is waiting or in flight. */
  predicate GatherDone(job: Job, progress: seq<Progress>)
    requires |progress| == |job.runs|
  {
    forall q :: 0 <= q < |progress| && !Deferred(job.runs[q]) ==> progress[q].Settled()
  }

  /** The loop over deferred collectors awaits each one before the next. */
  predicate NoDeferredInFlight(job: Job, progress: seq<Progress>)
    requires |progress| == |job.runs|
  {
    forall q :: 0 <= q < |progress| && Deferred(job.runs[q]) ==> !progress[q].InFlight()
  }

  predicate AllSettled(progress: seq<Progress>) {
    forall q :: 0 <= q < |progress| ==> progress[q].Settled()
  }

  function FirstProgress(job: Job, pending: set<nat>): seq<Progress> {
    seq(|job.runs|, i requires 0 <= i < |job.runs| => if i in pending then Waiting else NotPending)
  }

  /** The effect of a move on the job's rows and on the dispatch, or None when it is not the next thing
      this dispatch can do. `cancelled` is the dispatch's own event flag. */
  function MoveJob(limit: nat, cancelled: bool, stage: Stage, job: Job, move: Move): Option<(Job, Stage)> {
    match (stage, move)
    case (Loading, Load) =>
      Some((job, Seeding(PendingRuns(job))))
    case (Seeding(pending), SeedSucceeds) =>
      Some((job, Dispatching(FirstProgress(job, pending), limit)))
    case (Seeding(pending), SeedFails(now, id)) =>
      if Newer(job, id) then Some((FailBeforeDispatch(job, pending, now, id), Finished)) else None
    case (Dispatching(progress, permits), _) =>
      if |progress| != |job.runs| then None else MoveCollector(cancelled, progress, permits, job, move)
    case _ => None
  }

  function MoveCollector(cancelled: bool, progress: seq<Progress>, permits: nat, job: Job, move: Move)
    : Option<(Job, Stage)>
    requires |progress| == |job.runs|
  {
    match move
    case Start(r, id) =>
      if r < |progress| && progress[r] == Waiting && Newer(job, id) then
        if Deferred(job.runs[r]) then
          if GatherDone(job, progress) && NoDeferredInFlight(job, progress) then
            Some((StartRun(job, r, id), Dispatching(progress[r := Started], permits)))
          else None
        else if permits > 0 then
          Some((StartRun(job, r, id), Dispatching(progress[r := Started], permits - 1)))
        else None
      else None
    case Reject(r, known) =>
      if r < |progress| && progress[r] == Started then
        var result := if known then Closing(NotApplicable, Some("not_applicable"))
                               else Closing(Failed, Some("unknown_collector"));
        Some((job, Dispatching(progress[r := result], permits)))
      else None
    case Check(r) =>
      if r < |progress| && progress[r] == Started then
        var next := if cancelled then Closing(Failed, Some("cancelled")) else Body;
        Some((job, Dispatching(progress[r := next], permits)))
      else None
    case Raise(r, status, code) =>
      if r < |progress| && progress[r] == Body && (status == Failed || status == SkippedNoKey || status == NotApplicable) then
        Some((job, Dispatching(progress[r := Closing(status, Some(code))], permits)))
      else None
    case Return(r, batch) =>
      if r < |progress| && progress[r] == Body then
        Some((job, Dispatching(progress[r := Returned(batch)], permits)))
      else None
    case Persist(r) =>
      if r < |progress| && progress[r].Returned? then
        var batch := progress[r].batch;
        Some((PersistFindings(job, r, batch), Dispatching(progress[r := Persisted(|batch|)], permits)))
      else None
    case Finish(r, id) =>
      if r < |progress| && (progress[r].Persisted? || progress[r].Closing?) && Newer(job, id) then
        var job' := if progress[r].Persisted? then FinishRun(job, r, Done, None, progress[r].count, id)
                    else FinishRun(job, r, progress[r].status, progress[r].code, 0, id);
        Some((job', Dispatching(progress[r := Over], if Deferred(job.runs[r]) then permits else permits + 1)))
      else None
    case Finalize(now, id) =>
      if AllSettled(progress) && Newer(job, id) then
        Some((FinalizeJob(job, cancelled, now, id), Finished))
      else None
    case _ => None
  }

  // ---------- what holds of a job and its dispatch between any two moves ----------

  /** Some run was failed without being started, because the deny-list could not be seeded. */
  predicate SeedFailed(job: Job) {
    exists i :: 0 <= i < |job.runs| && job.runs[i].status == Failed && job.runs[i].errorCode == Some("deny_list_seed_failed")
  }

  predicate TerminalOk(job: Job) {
    && job.finishedAt.Some?
    && |job.events| > 0
    && job.events[|job.events| - 1].kind == JobFinished(job.status)
    && match job.status
       case Canceled => !Has(job, Running) && !Has(job, Interrupted)
       case Completed => AllTerminal(job) && !Has(job, Failed)
       case CompletedWithWarnings => AllTerminal(job) && Has(job, Done) && Has(job, Failed)
       case JobFailed => AllTerminal(job) && Has(job, Failed) && (Has(job, Done) ==> SeedFailed(job))
       case _ => false
  }

  predicate Agrees(p: Progress, run: Run) {
    match p
    case NotPending => run.status.Terminal()
    case Over => run.status.Terminal()
    case Waiting => run.status.Pending()
    case Persisted(count) => run.status == Running && run.unrecorded == count
    case Closing(status, _) => run.status == Running && run.unrecorded == 0 && status.Terminal() && status != Done
    case _ => run.status == Running && run.unrecorded == 0
  }

  datatype Phase = Down | Recovered | Up

  predicate StatusOk(phase: Phase, job: Job, stage: Option<Stage>) {
    match stage
    case None =>
      (match job.status
       case JobQueued => !Has(job, Running) && !Has(job, Interrupted) && Has(job, Queued)
       case JobRunning => (phase != Down ==> !Has(job, Running)) && (phase == Up ==> AllTerminal(job))
       case _ => TerminalOk(job))
    case Some(Loading) => job.status == JobRunning && !Has(job, Running) && HasPending(job)
    case Some(Seeding(pending)) =>
      job.status == JobRunning && !Has(job, Running) && HasPending(job) && pending == PendingRuns(job)
    case Some(Dispatching(progress, _)) =>
      && job.status == JobRunning
      && |progress| == |job.runs|
      && forall i :: 0 <= i < |progress| ==> Agrees(progress[i], job.runs[i])
    case Some(Finished) => job.status.Terminal() && TerminalOk(job)
  }

  function RunningImmediate(): Run -> nat {
    (run: Run) => if run.status == Running && !Deferred(run) then 1 else 0
  }

  function RunningDeferred(): Run -> nat {
    (run: Run) => if run.status == Running && Deferred(run) then 1 else 0
  }

  predicate DeferredBegun(job: Job, progress: seq<Progress>)
    requires |progress| == |job.runs|
  {
    exists q :: 0 <= q < |progress| && Deferred(job.runs[q]) && (progress[q].InFlight() || progress[q].Over?)
  }

  predicate DispatchOk(limit: nat, job: Job, stage: Option<Stage>) {
    match stage
    case Some(Dispatching(progress, permits)) =>
      && |progress| == |job.runs|
      && permits + Sum(job.runs, RunningImmediate()) == limit
      && Sum(job.runs, RunningDeferred()) <= 1
      && (DeferredBegun(job, progress) ==> GatherDone(job, progress))
    case _ => true
  }

  // The ledgers, one for each collector name.

  function AttemptsOf(name: string): Run -> nat {
    (run: Run) => if run.collector == name then run.attempts else 0
  }

  function RunningOf(name: string): Run -> nat {
    (run: Run) => if run.collector == name && run.status == Running then 1 else 0
  }

  function InterruptionsOf(name: string): Run -> nat {
    (run: Run) => if run.collector == name then run.interruptions else 0
  }

  function OpenOf(name: string): Run -> nat {
    (run: Run) => if run.collector != name then 0 else if run.status == Running then run.interruptions + 1 else run.interruptions
  }

  function FindingCountOf(name: string): Run -> nat {
    (run: Run) => if run.collector == name then run.findingCount else 0
  }

  function LostOf(name: string): Run -> nat {
    (run: Run) => if run.collector == name then run.unrecorded + run.orphaned else 0
  }

  function CommittedOf(name: string): Run -> nat {
    (run: Run) => if run.collector == name then run.findingCount + run.unrecorded + run.orphaned else 0
  }

  function StartedBy(name: string): Event -> nat {
    (e: Event) => if e.collector == Some(name) && e.kind == CollectorStarted then 1 else 0
  }

  function FinishedBy(name: string): Event -> nat {
    (e: Event) => if e.collector == Some(name) && e.kind.CollectorFinished? then 1 else 0
  }

  function FoundBy(name: string): Finding -> nat {
    (f: Finding) => if f.collector == name then 1 else 0
  }

  predicate LedgerFor(job: Job, name: string) {
    && Sum(job.runs, AttemptsOf(name)) == Sum(job.events, StartedBy(name))
    && Sum(job.events, StartedBy(name)) == Sum(job.events, FinishedBy(name)) + Sum(job.runs, OpenOf(name))
    && Sum(job.findings, FoundBy(name)) == Sum(job.runs, CommittedOf(name))
  }

  predicate RunOk(run: Run) {
    && (run.status != Done ==> run.findingCount == 0)
    && (run.status != Running ==> run.unrecorded == 0)
  }

  predicate RowsOk(job: Job) {
    && |job.runs| > 0
    && (forall i :: 0 <= i < |job.runs| ==> RunOk(job.runs[i]))
    && (forall i, k :: 0 <= i < k < |job.events| ==> job.events[i].id < job.events[k].id)
  }

  /** With no process serving, no attempt is alive to hold unrecorded findings. */
  predicate Quiet(job: Job) {
    forall i :: 0 <= i < |job.runs| ==> job.runs[i].unrecorded == 0
  }

  ghost predicate JobOk(limit: nat, phase: Phase, job: Job, stage: Option<Stage>) {
    && RowsOk(job)
    && (phase != Up ==> Quiet(job))
    && StatusOk(phase, job, stage)
    && DispatchOk(limit, job, stage)
    && forall name: string :: LedgerFor(job, name)
  }

  // ---------- the ledgers under each kind of change ----------

  lemma LedgerOfUpdate(job: Job, r: nat, run: Run, name: string)
    requires r < |job.runs|
    ensures var runs' := job.runs[r := run]; var was := job.runs[r];
            && Sum(runs', AttemptsOf(name)) + AttemptsOf(name)(was) == Sum(job.runs, AttemptsOf(name)) + AttemptsOf(name)(run)
            && Sum(runs', OpenOf(name)) + OpenOf(name)(was) == Sum(job.runs, OpenOf(name)) + OpenOf(name)(run)
            && Sum(runs', CommittedOf(name)) + CommittedOf(name)(was) == Sum(job.runs, CommittedOf(name)) + CommittedOf(name)(run)
  {
    SumUpdate(job.runs, r, run, AttemptsOf(name));
    SumUpdate(job.runs, r, run, OpenOf(name));
    SumUpdate(job.runs, r, run, CommittedOf(name));
  }

  lemma LedgerOfEvent(events: seq<Event>, e: Event, name: string)
    ensures Sum(events + [e], StartedBy(name)) == Sum(events, StartedBy(name)) + StartedBy(name)(e)
    ensures Sum(events + [e], FinishedBy(name)) == Sum(events, FinishedBy(name)) + FinishedBy(name)(e)
  {
    SumAppend(events, e, StartedBy(name));
    SumAppend(events, e, FinishedBy(name));
  }

  lemma LedgerOfStart(job: Job, r: nat, id: int, name: string)
    requires r < |job.runs| && LedgerFor(job, name) && job.runs[r].status.Pending()
    ensures LedgerFor(StartRun(job, r, id), name)
  {
    var job' := StartRun(job, r, id);
    LedgerOfUpdate(job, r, job'.runs[r], name);
    LedgerOfEvent(job.events, job'.events[|job.events|], name);
  }

  lemma {:induction false} RowedCount(collector: string, batch: seq<string>, name: string)
    ensures Sum(Rowed(collector, batch), FoundBy(name)) == if collector == name then |batch| else 0
  {
    if batch != [] {
      assert Rowed(collector, batch)[1..] == Rowed(collector, batch[1..]);
      RowedCount(collector, batch[1..], name);
    }
  }

  lemma LedgerOfPersist(job: Job, r: nat, batch: seq<string>, name: string)
    requires r < |job.runs| && LedgerFor(job, name)
    ensures LedgerFor(PersistFindings(job, r, batch), name)
  {
    var job' := PersistFindings(job, r, batch);
    LedgerOfUpdate(job, r, job'.runs[r], name);
    SumConcat(job.findings, Rowed(job.runs[r].collector, batch), FoundBy(name));
    RowedCount(job.runs[r].collector, batch, name);
  }

  lemma LedgerOfFinish(job: Job, r: nat, status: CollectorStatus, code: Option<string>, count: nat, id: int, name: string)
    requires r < |job.runs| && LedgerFor(job, name)
    requires job.runs[r].status == Running && status.Terminal()
    requires job.runs[r].findingCount == 0 && job.runs[r].unrecorded == count
    ensures LedgerFor(FinishRun(job, r, status, code, count, id), name)
  {
    var job' := FinishRun(job, r, status, code, count, id);
    LedgerOfUpdate(job, r, job'.runs[r], name);
    LedgerOfEvent(job.events, job'.events[|job.events|], name);
  }

  lemma LedgerOfClose(job: Job, status: JobStatus, now: int, id: int, name: string)
    requires LedgerFor(job, name)
    ensures LedgerFor(CloseJob(job, status, now, id), name)
  {
    LedgerOfEvent(job.events, Event(id, None, JobFinished(status)), name);
  }

  /** Rewriting every run while keeping each of its three measures keeps the ledgers. */
  lemma LedgerOfRewrite(job: Job, runs: seq<Run>, name: string)
    requires |runs| == |job.runs| && LedgerFor(job, name)
    requires forall i :: 0 <= i < |runs| ==>
               && AttemptsOf(name)(runs[i]) == AttemptsOf(name)(job.runs[i])
               && OpenOf(name)(runs[i]) == OpenOf(name)(job.runs[i])
               && CommittedOf(name)(runs[i]) == CommittedOf(name)(job.runs[i])
    ensures LedgerFor(job.(runs := runs), name)
  {
    SumSame(runs, job.runs, AttemptsOf(name), AttemptsOf(name));
    SumSame(runs, job.runs, OpenOf(name), OpenOf(name));
    SumSame(runs, job.runs, CommittedOf(name), CommittedOf(name));
  }

  // ---------- every move keeps the job in order ----------

  lemma StartKeepsCounts(limit: nat, job: Job, stage: Stage, r: nat, id: int, stage': Stage)
    requires DispatchOk(limit, job, Some(stage)) && StatusOk(Up, job, Some(stage)) && stage.Dispatching? && r < |job.runs|
    requires MoveCollector(false, stage.progress, stage.permits, job, Start(r, id)) == Some((StartRun(job, r, id), stage'))
    ensures DispatchOk(limit, StartRun(job, r, id), Some(stage'))
  {
    var job' := StartRun(job, r, id);
    assert Agrees(stage.progress[r], job.runs[r]);
    SumUpdate(job.runs, r, job'.runs[r], RunningImmediate());
    SumUpdate(job.runs, r, job'.runs[r], RunningDeferred());
    if Deferred(job.runs[r]) {
      NoRunningDeferred(job, stage.progress);
    }
  }

  lemma StartKeeps(limit: nat, job: Job, stage: Stage, r: nat, id: int, stage': Stage)
    requires JobOk(limit, Up, job, Some(stage)) && stage.Dispatching? && r < |job.runs|
    requires MoveCollector(false, stage.progress, stage.permits, job, Start(r, id)) == Some((StartRun(job, r, id), stage'))
    ensures JobOk(limit, Up, StartRun(job, r, id), Some(stage'))
  {
    StartKeepsCounts(limit, job, stage, r, id, stage');
    assert Agrees(stage.progress[r], job.runs[r]);
    forall name: string ensures LedgerFor(StartRun(job, r, id), name) { LedgerOfStart(job, r, id, name); }
  }

  lemma NoRunningDeferred(job: Job, progress: seq<Progress>)
    requires |progress| == |job.runs| && NoDeferredInFlight(job, progress)
    requires forall i :: 0 <= i < |progress| ==> Agrees(progress[i], job.runs[i])
    ensures Sum(job.runs, RunningDeferred()) == 0
  {
    forall i | 0 <= i < |job.runs| ensures RunningDeferred()(job.runs[i]) == 0 {
      assert Agrees(progress[i], job.runs[i]);
    }
    SumZero(job.runs, RunningDeferred());
  }

  /** Moves that touch no row and keep a run in flight. */
  lemma StepInMemoryKeeps(limit: nat, job: Job, progress: seq<Progress>, permits: nat, r: nat, p: Progress)
    requires JobOk(limit, Up, job, Some(Dispatching(progress, permits)))
    requires r < |progress| && progress[r].InFlight() && p.InFlight() && Agrees(p, job.runs[r])
    ensures JobOk(limit, Up, job, Some(Dispatching(progress[r := p], permits)))
  {
  }

  lemma PersistKeeps(limit: nat, job: Job, progress: seq<Progress>, permits: nat, r: nat)
    requires JobOk(limit, Up, job, Some(Dispatching(progress, permits)))
    requires r < |progress| && progress[r].Returned?
    ensures JobOk(limit, Up, PersistFindings(job, r, progress[r].batch),
                  Some(Dispatching(progress[r := Persisted(|progress[r].batch|)], permits)))
  {
    var batch := progress[r].batch;
    var job' := PersistFindings(job, r, batch);
    assert Agrees(progress[r], job.runs[r]);
    SumUpdate(job.runs, r, job'.runs[r], RunningImmediate());
    SumUpdate(job.runs, r, job'.runs[r], RunningDeferred());
    forall name: string ensures LedgerFor(job', name) { LedgerOfPersist(job, r, batch, name); }
  }

  lemma FinishKeepsCounts(limit: nat, job: Job, stage: Stage, r: nat, id: int, job': Job, stage': Stage)
    requires DispatchOk(limit, job, Some(stage)) && StatusOk(Up, job, Some(stage)) && stage.Dispatching?
    requires MoveCollector(false, stage.progress, stage.permits, job, Finish(r, id)) == Some((job', stage'))
    ensures DispatchOk(limit, job', Some(stage'))
  {
    assert Agrees(stage.progress[r], job.runs[r]);
    SumUpdate(job.runs, r, job'.runs[r], RunningImmediate());
    SumUpdate(job.runs, r, job'.runs[r], RunningDeferred());
  }

  lemma FinishKeeps(limit: nat, job: Job, stage: Stage, r: nat, id: int, job': Job, stage': Stage)
    requires JobOk(limit, Up, job, Some(stage)) && stage.Dispatching?
    requires MoveCollector(false, stage.progress, stage.permits, job, Finish(r, id)) == Some((job', stage'))
    ensures JobOk(limit, Up, job', Some(stage'))
  {
    var p := stage.progress[r];
    assert Agrees(p, job.runs[r]) && RunOk(job.runs[r]);
    FinishKeepsCounts(limit, job, stage, r, id, job', stage');
    forall name: string ensures LedgerFor(job', name) {
      if p.Persisted? {
        LedgerOfFinish(job, r, Done, None, p.count, id, name);
      } else {
        LedgerOfFinish(job, r, p.status, p.code, 0, id, name);
      }
    }
  }

  lemma StatusesHas(job: Job, status: CollectorStatus)
    ensures status in Statuses(job.runs) <==> Has(job, status)
  {
    forall i | 0 <= i < |job.runs| && job.runs[i].status == status ensures status in Statuses(job.runs) {
      assert Statuses(job.runs)[i] == status;
    }
  }

  lemma FinalizeKeeps(limit: nat, cancelled: bool, job: Job, progress: seq<Progress>, permits: nat, now: int, id: int)
    requires JobOk(limit, Up, job, Some(Dispatching(progress, permits)))
    requires AllSettled(progress) && Newer(job, id)
    ensures JobOk(limit, Up, FinalizeJob(job, cancelled, now, id), Some(Finished))
  {
    var job' := FinalizeJob(job, cancelled, now, id);
    StatusesHas(job, Done);
    StatusesHas(job, Failed);
    assert Has(job, Done) == Has(job', Done) && Has(job, Failed) == Has(job', Failed);
    forall name: string ensures LedgerFor(job', name) { LedgerOfClose(job, job'.status, now, id, name); }
  }

  lemma SeedFailsKeeps(limit: nat, job: Job, pending: set<nat>, now: int, id: int)
    requires JobOk(limit, Up, job, Some(Seeding(pending))) && Newer(job, id)
    ensures JobOk(limit, Up, FailBeforeDispatch(job, pending, now, id), Some(Finished))
  {
    var failed := job.(runs := FailRuns(job.runs, pending));
    var job' := FailBeforeDispatch(job, pending, now, id);
    FailRunsTerminal(job, pending);
    forall name: string ensures LedgerFor(job', name) {
      assert LedgerFor(job, name);
      FailRunsLedger(job, pending, name);
      LedgerOfClose(failed, JobFailed, now, id, name);
    }
  }

  lemma FailRunsTerminal(job: Job, pending: set<nat>)
    requires RowsOk(job) && !Has(job, Running) && HasPending(job) && pending == PendingRuns(job)
    ensures var failed := job.(runs := FailRuns(job.runs, pending));
            RowsOk(failed) && AllTerminal(failed) && Has(failed, Failed) && SeedFailed(failed)
  {
    var runs := FailRuns(job.runs, pending);
    var q :| 0 <= q < |job.runs| && job.runs[q].status.Pending();
    assert q in pending && runs[q].status == Failed;
    forall i | 0 <= i < |runs| ensures runs[i].status.Terminal() && RunOk(runs[i]) {
      assert RunOk(job.runs[i]) && job.runs[i].status != Running;
    }
  }

  lemma FailRunsLedger(job: Job, pending: set<nat>, name: string)
    requires LedgerFor(job, name) && pending == PendingRuns(job)
    ensures LedgerFor(job.(runs := FailRuns(job.runs, pending)), name)
  {
    LedgerOfRewrite(job, FailRuns(job.runs, pending), name);
  }

  lemma SeedSucceedsKeeps(limit: nat, job: Job, pending: set<nat>)
    requires JobOk(limit, Up, job, Some(Seeding(pending)))
    ensures JobOk(limit, Up, job, Some(Dispatching(FirstProgress(job, pending), limit)))
  {
    forall i | 0 <= i < |job.runs|
      ensures Agrees(FirstProgress(job, pending)[i], job.runs[i])
      ensures RunningImmediate()(job.runs[i]) == 0 && RunningDeferred()(job.runs[i]) == 0
    {
      assert job.runs[i].status != Running;
    }
    SumZero(job.runs, RunningImmediate());
    SumZero(job.runs, RunningDeferred());
  }

  lemma MoveKeepsJobOk(limit: nat, cancelled: bool, job: Job, stage: Stage, move: Move)
    requires JobOk(limit, Up, job, Some(stage))
    requires MoveJob(limit, cancelled, stage, job, move).Some?
    ensures var (job', stage') := MoveJob(limit, cancelled, stage, job, move).value;
            JobOk(limit, Up, job', Some(stage'))
  {
    match move
    case Load =>
    case SeedSucceeds => SeedSucceedsKeeps(limit, job, stage.pending);
    case SeedFails(now, id) => SeedFailsKeeps(limit, job, stage.pending, now, id);
    case Start(r, id) =>
      StartKeeps(limit, job, stage, r, id, MoveJob(limit, cancelled, stage, job, move).value.1);
    case Persist(r) => PersistKeeps(limit, job, stage.progress, stage.permits, r);
    case Finish(r, id) =>
      var (job', stage') := MoveJob(limit, cancelled, stage, job, move).value;
      FinishKeeps(limit, job, stage, r, id, job', stage');
    case Finalize(now, id) =>
      FinalizeKeeps(limit, cancelled, job, stage.progress, stage.permits, now, id);
    case _ =>
      var r := move.r;
      var p := MoveJob(limit, cancelled, stage, job, move).value.1.progress[r];
      assert Agrees(stage.progress[r], job.runs[r]);
      StepInMemoryKeeps(limit, job, stage.progress, stage.permits, r, p);
  }
}
