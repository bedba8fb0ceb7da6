/** What a dispatch makes of its job when nothing comes between its transactions. */
module Undisturbed {
  import opened Wrappers
  import opened Rows
  import opened Dispatch

  /** What the collector's own code does when it is run. */
  datatype Outcome =
    | Findings(batch: seq<string>)
    | Error(status: CollectorStatus, code: string)

  /** How one collector meets this job: whether the registry has it, whether it supports the target,
      and what its code would do. */
  datatype Behaviour = Behaviour(known: bool, supported: bool, outcome: Outcome)
  {
    predicate Typed() {
      outcome.Error? ==> outcome.status == Failed || outcome.status == SkippedNoKey || outcome.status == NotApplicable
    }
  }

  predicate CanStart(limit: nat, stage: Stage, job: Job, r: nat) {
    && stage.Dispatching? && |stage.progress| == |job.runs| && r < |job.runs| && stage.progress[r] == Waiting
    && if Deferred(job.runs[r]) then GatherDone(job, stage.progress) && NoDeferredInFlight(job, stage.progress)
       else stage.permits > 0
  }

  /** The stage with one run moved to `p` and `change` permits given back. */
  function At(stage: Stage, r: nat, p: Progress, change: int): Stage
    requires stage.Dispatching? && r < |stage.progress| && stage.permits + change >= 0
  {
    Dispatching(stage.progress[r := p], stage.permits + change)
  }

  lemma AtTwice(stage: Stage, r: nat, p: Progress, m: int, q: Progress, n: int)
    requires stage.Dispatching? && r < |stage.progress| && stage.permits + m >= 0 && stage.permits + m + n >= 0
    ensures At(At(stage, r, p, m), r, q, n) == At(stage, r, q, m + n)
  {
    assert stage.progress[r := p][r := q] == stage.progress[r := q];
  }

  function Attempted(job: Job, r: nat, cancelled: bool, behaviour: Behaviour): Job
    requires r < |job.runs|
  {
    if Landing(cancelled, behaviour) == Done then PersistFindings(job, r, Yielded(cancelled, behaviour)) else job
  }

  predicate Lands(p: Progress, cancelled: bool, behaviour: Behaviour) {
    if Landing(cancelled, behaviour) == Done then p == Persisted(|Yielded(cancelled, behaviour)|)
    else p == Closing(Landing(cancelled, behaviour), CodeOf(cancelled, behaviour))
  }

  lemma RunIsRecorded(was: Job, r: nat, id: int, cancelled: bool, behaviour: Behaviour, p: Progress, id': int)
    requires r < |was.runs| && Lands(p, cancelled, behaviour) && behaviour.Typed()
    ensures var attempted := Attempted(StartRun(was, r, id), r, cancelled, behaviour);
            var job := if p.Persisted? then FinishRun(attempted, r, Done, None, p.count, id')
                       else FinishRun(attempted, r, p.status, p.code, 0, id');
            RanOnce(was, job, r, cancelled, behaviour)
  {
    assert was.findings + [] == was.findings;
  }

  /** What one undisturbed run of a collector does to the job: its own row, its findings, and two events; the
      other rows and the status stay. */
  predicate RanOnce(was: Job, job: Job, r: nat, cancelled: bool, behaviour: Behaviour) {
    && r < |was.runs| && job.status == was.status && |job.runs| == |was.runs|
    && job.runs == was.runs[r := job.runs[r]]
    && RanAs(was.runs[r], job.runs[r], cancelled, behaviour)
    && Marks(job.events) == Marks(was.events) + AttemptMarks(was.runs[r].collector, cancelled, behaviour)
    && job.findings == was.findings + Rowed(was.runs[r].collector, Yielded(cancelled, behaviour))
  }

  /** An event without its id. */
  datatype Mark = Mark(collector: Option<string>, kind: EventKind)

  function Marks(events: seq<Event>): seq<Mark> {
    seq(|events|, i requires 0 <= i < |events| => Mark(events[i].collector, events[i].kind))
  }

  /** One attempt logs that it started, and how it finished. */
  function AttemptMarks(collector: string, cancelled: bool, behaviour: Behaviour): seq<Mark> {
    [Mark(Some(collector), CollectorStarted),
     Mark(Some(collector), CollectorFinished(Landing(cancelled, behaviour), |Yielded(cancelled, behaviour)|))]
  }

  function CodeOf(cancelled: bool, behaviour: Behaviour): Option<string> {
    if !behaviour.known then Some("unknown_collector")
    else if !behaviour.supported then Some("not_applicable")
    else if cancelled then Some("cancelled")
    else if behaviour.outcome.Error? then Some(behaviour.outcome.code)
    else None
  }

  function Landing(cancelled: bool, behaviour: Behaviour): CollectorStatus {
    if !behaviour.known then Failed
    else if !behaviour.supported then NotApplicable
    else if cancelled then Failed
    else if behaviour.outcome.Error? then behaviour.outcome.status
    else Done
  }

  function Yielded(cancelled: bool, behaviour: Behaviour): seq<string> {
    if behaviour.known && behaviour.supported && !cancelled && behaviour.outcome.Findings? then behaviour.outcome.batch else []
  }

  function ProgressAt(was: Job, pending: set<nat>, todo: set<nat>): seq<Progress> {
    seq(|was.runs|, i requires 0 <= i < |was.runs| =>
      if i !in pending then NotPending else if i in todo then Waiting else Over)
  }

  /** The row an undisturbed dispatch leaves for a pending run. */
  predicate RanAs(was: Run, run: Run, cancelled: bool, behaviour: Behaviour) {
    && run.collector == was.collector
    && run.attempts == was.attempts + 1
    && run.status == Landing(cancelled, behaviour)
    && run.errorCode == CodeOf(cancelled, behaviour)
    && run.findingCount == |Yielded(cancelled, behaviour)|
  }

  /** The same, told from the collector's behaviour and the call's event alone. */
  predicate RanAsTold(was: Run, run: Run, cancelled: bool, behaviour: Behaviour) {
    && run.collector == was.collector
    && run.attempts == was.attempts + 1
    && (run.status != Done ==> run.findingCount == 0)
    && (if !behaviour.known then run.status == Failed && run.errorCode == Some("unknown_collector")
        else if !behaviour.supported then run.status == NotApplicable && run.errorCode == Some("not_applicable")
        else if cancelled then run.status == Failed && run.errorCode == Some("cancelled")
        else match behaviour.outcome
             case Error(status, code) => run.status == status && run.errorCode == Some(code)
             case Findings(batch) => run.status == Done && run.errorCode == None && run.findingCount == |batch|)
  }

  lemma RanIsTold(was: Run, run: Run, cancelled: bool, behaviour: Behaviour)
    requires RanAs(was, run, cancelled, behaviour) && behaviour.Typed()
    ensures RanAsTold(was, run, cancelled, behaviour)
  {
  }

  /** Every pending run has run once, and every other one has its old row. */
  predicate RunsTold(was: Job, job: Job, cancelled: bool, behaviours: seq<Behaviour>)
    requires |behaviours| == |was.runs|
  {
    && |job.runs| == |was.runs|
    && forall i :: 0 <= i < |was.runs| ==>
         if was.runs[i].status == Queued || was.runs[i].status == Interrupted then RanAsTold(was.runs[i], job.runs[i], cancelled, behaviours[i])
         else job.runs[i] == was.runs[i]
  }

  lemma RunsAreTold(was: Job, job: Job, cancelled: bool, behaviours: seq<Behaviour>)
    requires |behaviours| == |was.runs| && forall i :: 0 <= i < |behaviours| ==> behaviours[i].Typed()
    requires RunsAt(was, job, PendingRuns(was), {}, cancelled, behaviours)
    ensures RunsTold(was, job, cancelled, behaviours)
  {
    forall i | 0 <= i < |was.runs| && i in PendingRuns(was) ensures RanAsTold(was.runs[i], job.runs[i], cancelled, behaviours[i]) {
      RanIsTold(was.runs[i], job.runs[i], cancelled, behaviours[i]);
    }
  }

  predicate RunsAt(was: Job, job: Job, pending: set<nat>, todo: set<nat>, cancelled: bool, behaviours: seq<Behaviour>)
    requires |behaviours| == |was.runs|
  {
    && |job.runs| == |was.runs|
    && forall i :: 0 <= i < |was.runs| ==>
         if i in pending && i !in todo then RanAs(was.runs[i], job.runs[i], cancelled, behaviours[i])
         else job.runs[i] == was.runs[i]
  }

  lemma OneFewer(was: Job, job: Job, job': Job, pending: set<nat>, todo: set<nat>, cancelled: bool, behaviours: seq<Behaviour>, r: nat)
    requires |behaviours| == |was.runs| && RunsAt(was, job, pending, todo, cancelled, behaviours)
    requires r in todo && todo <= pending && r < |was.runs| && RanOnce(job, job', r, cancelled, behaviours[r])
    ensures RunsAt(was, job', pending, todo - {r}, cancelled, behaviours)
    ensures ProgressAt(was, pending, todo)[r := Over] == ProgressAt(was, pending, todo - {r})
  {
    forall i | 0 <= i < |was.runs| && i in pending && i !in todo - {r}
      ensures RanAs(was.runs[i], job'.runs[i], cancelled, behaviours[i])
    {
      if i != r { assert RanAs(was.runs[i], job.runs[i], cancelled, behaviours[i]); }
    }
  }

  /** The runs in `order` are over, in that order: each pending run that is not in `todo`, once. */
  predicate Listed(order: seq<nat>, pending: set<nat>, todo: set<nat>) {
    && (forall r :: r in order ==> r in pending && r !in todo)
    && (forall r :: r in pending && r !in todo ==> r in order)
    && (forall i, k :: 0 <= i < k < |order| ==> order[i] != order[k])
  }

  predicate InRange(order: seq<nat>, n: nat) {
    forall i :: 0 <= i < |order| ==> order[i] < n
  }

  /** What the runs in `order` log, one after the other. */
  function MarksOf(was: Job, order: seq<nat>, cancelled: bool, behaviours: seq<Behaviour>): seq<Mark>
    requires |behaviours| == |was.runs| && InRange(order, |was.runs|)
  {
    if order == [] then []
    else
      var r := order[|order| - 1];
      MarksOf(was, order[..|order| - 1], cancelled, behaviours) + AttemptMarks(was.runs[r].collector, cancelled, behaviours[r])
  }

  /** And what they find. */
  function FindingsOf(was: Job, order: seq<nat>, cancelled: bool, behaviours: seq<Behaviour>): seq<Finding>
    requires |behaviours| == |was.runs| && InRange(order, |was.runs|)
  {
    if order == [] then []
    else
      var r := order[|order| - 1];
      FindingsOf(was, order[..|order| - 1], cancelled, behaviours) + Rowed(was.runs[r].collector, Yielded(cancelled, behaviours[r]))
  }

  predicate Recorded(was: Job, job: Job, order: seq<nat>, cancelled: bool, behaviours: seq<Behaviour>)
    requires |behaviours| == |was.runs|
  {
    && InRange(order, |was.runs|)
    && Marks(job.events) == Marks(was.events) + MarksOf(was, order, cancelled, behaviours)
    && job.findings == was.findings + FindingsOf(was, order, cancelled, behaviours)
  }

  lemma RecordsOneMore(was: Job, job: Job, job': Job, order: seq<nat>, cancelled: bool, behaviours: seq<Behaviour>, r: nat)
    requires |behaviours| == |was.runs| == |job.runs| && r < |was.runs| && job.runs[r].collector == was.runs[r].collector
    requires Recorded(was, job, order, cancelled, behaviours) && RanOnce(job, job', r, cancelled, behaviours[r])
    ensures Recorded(was, job', order + [r], cancelled, behaviours)
  {
    assert (order + [r])[..|order|] == order;
    assert MarksOf(was, order + [r], cancelled, behaviours)
           == MarksOf(was, order, cancelled, behaviours) + AttemptMarks(was.runs[r].collector, cancelled, behaviours[r]);
    assert FindingsOf(was, order + [r], cancelled, behaviours)
           == FindingsOf(was, order, cancelled, behaviours) + Rowed(was.runs[r].collector, Yielded(cancelled, behaviours[r]));
  }

  predicate ImmediateFirst(was: Job, order: seq<nat>)
    requires InRange(order, |was.runs|)
  {
    forall i, k :: 0 <= i < k < |order| && was.runs[order[i]].collector == "technology" ==> was.runs[order[k]].collector == "technology"
  }

  /** A deferred run is over only when no immediate one is to do. */
  predicate NoneLeftBehind(was: Job, order: seq<nat>, todo: set<nat>)
    requires InRange(order, |was.runs|)
  {
    forall i, q :: 0 <= i < |order| && q in todo && q < |was.runs| && Deferred(was.runs[order[i]]) ==> Deferred(was.runs[q])
  }

  /** Rows, findings and log are those of the runs in `order`: the pending ones that are not to do, immediate
      ones first. */
  predicate Accounted(was: Job, job: Job, pending: set<nat>, todo: set<nat>, order: seq<nat>, cancelled: bool, behaviours: seq<Behaviour>)
    requires |behaviours| == |was.runs|
  {
    && job.status == JobRunning && Listed(order, pending, todo)
    && RunsAt(was, job, pending, todo, cancelled, behaviours) && Recorded(was, job, order, cancelled, behaviours)
    && ImmediateFirst(was, order) && NoneLeftBehind(was, order, todo)
  }

  lemma AccountsForOneMore(was: Job, job: Job, job': Job, pending: set<nat>, todo: set<nat>, order: seq<nat>, cancelled: bool,
                           behaviours: seq<Behaviour>, r: nat)
    requires |behaviours| == |was.runs| && Accounted(was, job, pending, todo, order, cancelled, behaviours)
    requires r in todo && todo <= pending && r < |was.runs| && RanOnce(job, job', r, cancelled, behaviours[r])
    requires !Deferred(was.runs[r]) || forall q :: q in todo && q < |was.runs| ==> Deferred(was.runs[q])
    ensures Accounted(was, job', pending, todo - {r}, order + [r], cancelled, behaviours)
    ensures ProgressAt(was, pending, todo)[r := Over] == ProgressAt(was, pending, todo - {r})
  {
    OneFewer(was, job, job', pending, todo, cancelled, behaviours, r);
    RecordsOneMore(was, job, job', order, cancelled, behaviours, r);
  }

  /** What a whole undisturbed dispatch makes of a job. With its deny-list seeded, every pending run is run once,
      in `order`, immediate ones before deferred ones; the findings and the log gain what they bring, in that
      order, and then the job is closed. Otherwise none is run, and the pending ones fail with the job. */
  predicate Dispatched(was: Job, job: Job, order: seq<nat>, seeded: bool, cancelled: bool, behaviours: seq<Behaviour>, now: int)
    requires |behaviours| == |was.runs|
  {
    && job.finishedAt == Some(now)
    && if seeded then
         && Listed(order, PendingRuns(was), {}) && InRange(order, |was.runs|) && ImmediateFirst(was, order)
         && RunsTold(was, job, cancelled, behaviours)
         && job.findings == was.findings + FindingsOf(was, order, cancelled, behaviours)
         && Marks(job.events) == Marks(was.events) + MarksOf(was, order, cancelled, behaviours) + [Mark(None, JobFinished(job.status))]
         && (job.status == Canceled <==> cancelled)
         && (!cancelled ==>
               && (job.status == Completed <==> !Has(job, Failed))
               && (job.status == CompletedWithWarnings <==> Has(job, Done) && Has(job, Failed))
               && (job.status == JobFailed <==> Has(job, Failed) && !Has(job, Done)))
       else
         && order == [] && |job.runs| == |was.runs|
         && (forall i :: 0 <= i < |was.runs| ==>
               job.runs[i] == if was.runs[i].status == Queued || was.runs[i].status == Interrupted
                              then was.runs[i].(status := Failed, errorCode := Some("deny_list_seed_failed")) else was.runs[i])
         && job.findings == was.findings
         && Marks(job.events) == Marks(was.events) + [Mark(None, JobFinished(job.status))]
         && job.status == JobFailed
  }

  lemma ClosingStatus(job: Job, cancelled: bool, now: int, id: int)
    ensures var closed := FinalizeJob(job, cancelled, now, id);
            && (closed.status == Canceled <==> cancelled)
            && (!cancelled ==>
                  && (closed.status == Completed <==> !Has(closed, Failed))
                  && (closed.status == CompletedWithWarnings <==> Has(closed, Done) && Has(closed, Failed))
                  && (closed.status == JobFailed <==> Has(closed, Failed) && !Has(closed, Done)))
  {
    StatusesHas(job, Done);
    StatusesHas(job, Failed);
    assert forall status :: Has(FinalizeJob(job, cancelled, now, id), status) == Has(job, status);
  }

  lemma ClosingMarks(job: Job, status: JobStatus, now: int, id: int)
    ensures Marks(CloseJob(job, status, now, id).events) == Marks(job.events) + [Mark(None, JobFinished(status))]
  {
  }

  /** A failed seeding starts no collector: no attempt is added and nothing is found. */
  lemma UnseededStartsNothing(was: Job, job: Job, order: seq<nat>, cancelled: bool, behaviours: seq<Behaviour>, now: int)
    requires |behaviours| == |was.runs| && Dispatched(was, job, order, false, cancelled, behaviours, now)
    ensures job.findings == was.findings && |job.runs| == |was.runs|
    ensures forall i :: 0 <= i < |was.runs| ==> job.runs[i].attempts == was.runs[i].attempts
    ensures forall i :: |was.events| <= i < |job.events| ==> !job.events[i].kind.CollectorStarted?
  {
    forall i | |was.events| <= i < |job.events| ensures !job.events[i].kind.CollectorStarted? {
      assert Marks(job.events)[i] == [Mark(None, JobFinished(job.status))][i - |was.events|];
    }
  }
}
