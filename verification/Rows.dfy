/** The job, collector-run, event and finding rows, and every transaction that changes them.
    A job holds its own children, which is what the cascading foreign keys amount to.
    A run is identified by its position, so two runs of one job may share a collector name. */
module Rows {
  import opened Wrappers

  datatype CollectorStatus =
    Queued | Running | Done | Failed | SkippedNoKey | NotApplicable | Interrupted
  {
    predicate Terminal() { Done? || Failed? || SkippedNoKey? || NotApplicable? }

    predicate Pending() { Queued? || Interrupted? }
  }

  datatype JobStatus =
    JobQueued | JobRunning | Completed | CompletedWithWarnings | JobFailed | Canceled
  {
    predicate Terminal() { !JobQueued? && !JobRunning? }
  }

  /** `interruptions`, `unrecorded` and `orphaned` are not columns. They remember the run's past:
      how often a recovery found it RUNNING, how many findings its live attempt has committed
      without recording them yet, and how many were committed by attempts that were killed
      before they could record them. No transaction reads them. */
  datatype Run = Run(
    collector: string,
    status: CollectorStatus,
    attempts: nat,
    findingCount: nat,
    errorCode: Option<string>,
    interruptions: nat,
    unrecorded: nat,
    orphaned: nat)

  datatype EventKind =
    | CollectorStarted
    | CollectorFinished(status: CollectorStatus, findingCount: nat)
    | JobFinished(final: JobStatus)

  datatype Event = Event(id: int, collector: Option<string>, kind: EventKind)

  datatype Finding = Finding(collector: string, content: string)

  datatype Job = Job(
    status: JobStatus,
    createdAt: int,
    startedAt: Option<int>,
    finishedAt: Option<int>,
    runs: seq<Run>,
    events: seq<Event>,
    findings: seq<Finding>)

  /** Technology inference reads what the other collectors persisted, so it runs last. */
  const TECHNOLOGY := "technology"

  predicate Deferred(run: Run) { run.collector == TECHNOLOGY }

  // ---------- reading a job ----------

  predicate AllTerminal(job: Job) {
    forall i :: 0 <= i < |job.runs| ==> job.runs[i].status.Terminal()
  }

  predicate Has(job: Job, status: CollectorStatus) {
    exists i :: 0 <= i < |job.runs| && job.runs[i].status == status
  }

  predicate HasPending(job: Job) {
    exists i :: 0 <= i < |job.runs| && job.runs[i].status.Pending()
  }

  function PendingRuns(job: Job): set<nat> {
    set i: nat | i < |job.runs| && job.runs[i].status.Pending()
  }

  function Statuses(runs: seq<Run>): seq<CollectorStatus> {
    seq(|runs|, i requires 0 <= i < |runs| => runs[i].status)
  }

  function ComputeJobStatus(statuses: seq<CollectorStatus>): JobStatus {
    var hasDone := Done in statuses;
    var hasFailed := Failed in statuses;
    if hasDone && hasFailed then CompletedWithWarnings
    else if hasFailed && !hasDone then JobFailed
    else Completed
  }

  /** An identifier the database could hand out next: above every event of the job. */
  predicate Newer(job: Job, id: int) {
    forall i :: 0 <= i < |job.events| ==> job.events[i].id < id
  }

  function NextId(job: Job): int {
    if job.events == [] then 1 else job.events[|job.events| - 1].id + 1
  }

  /** The runs of a job a retry request by name would find. */
  function Named(job: Job, name: string): set<nat> {
    set i: nat | i < |job.runs| && job.runs[i].collector == name
  }

  // ---------- transactions ----------

  function NewRun(name: string): Run {
    Run(name, Queued, 0, 0, None, 0, 0, 0)
  }

  function NewJob(sources: seq<string>, now: int): Job {
    Job(JobQueued, now, None, None,
        seq(|sources|, i requires 0 <= i < |sources| => NewRun(sources[i])), [], [])
  }

  function ClaimJob(job: Job, now: int): Job {
    job.(status := JobRunning, startedAt := Some(now))
  }

  function CloseJob(job: Job, status: JobStatus, now: int, id: int): Job {
    job.(status := status, finishedAt := Some(now),
         events := job.events + [Event(id, None, JobFinished(status))])
  }

  function RequeueRun(job: Job, r: nat): Job
    requires r < |job.runs|
  {
    job.(status := JobQueued, startedAt := None, finishedAt := None,
         runs := job.runs[r := job.runs[r].(status := Queued, errorCode := None)])
  }

  function StartRun(job: Job, r: nat, id: int): Job
    requires r < |job.runs|
  {
    var run := job.runs[r];
    job.(runs := job.runs[r := run.(status := Running, attempts := run.attempts + 1)],
         events := job.events + [Event(id, Some(run.collector), CollectorStarted)])
  }

  function Rowed(collector: string, batch: seq<string>): seq<Finding> {
    seq(|batch|, i requires 0 <= i < |batch| => Finding(collector, batch[i]))
  }

  function PersistFindings(job: Job, r: nat, batch: seq<string>): Job
    requires r < |job.runs|
  {
    var run := job.runs[r];
    job.(runs := job.runs[r := run.(unrecorded := run.unrecorded + |batch|)],
         findings := job.findings + Rowed(run.collector, batch))
  }

  function FinishRun(job: Job, r: nat, status: CollectorStatus, code: Option<string>, count: nat, id: int): Job
    requires r < |job.runs|
  {
    var run := job.runs[r];
    job.(runs := job.runs[r := run.(status := status, findingCount := count, errorCode := code, unrecorded := 0)],
         events := job.events + [Event(id, Some(run.collector), CollectorFinished(status, count))])
  }

  function FailedBeforeDispatch(run: Run): Run {
    run.(status := Failed, errorCode := Some("deny_list_seed_failed"))
  }

  function FailRuns(runs: seq<Run>, pending: set<nat>): seq<Run> {
    seq(|runs|, i requires 0 <= i < |runs| => if i in pending then FailedBeforeDispatch(runs[i]) else runs[i])
  }

  function FailBeforeDispatch(job: Job, pending: set<nat>, now: int, id: int): Job {
    CloseJob(job.(runs := FailRuns(job.runs, pending)), JobFailed, now, id)
  }

  function FinalizeJob(job: Job, cancelled: bool, now: int, id: int): Job {
    CloseJob(job, if cancelled then Canceled else ComputeJobStatus(Statuses(job.runs)), now, id)
  }

  function InterruptRun(run: Run): Run {
    if run.status == Running then run.(status := Interrupted, interruptions := run.interruptions + 1) else run
  }

  /** What recovery does to the rows of one job. */
  function Recover(job: Job): Job {
    job.(runs := seq(|job.runs|, i requires 0 <= i < |job.runs| => InterruptRun(job.runs[i])))
  }

  function KillAttempt(run: Run): Run {
    run.(orphaned := run.orphaned + run.unrecorded, unrecorded := 0)
  }

  /** A crash changes no column; it only turns unrecorded findings into orphaned ones. */
  function Crash(job: Job): Job {
    job.(runs := seq(|job.runs|, i requires 0 <= i < |job.runs| => KillAttempt(job.runs[i])))
  }
}
