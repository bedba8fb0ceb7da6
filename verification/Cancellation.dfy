/** What an accepted cancellation guarantees for the rest of the dispatch it was accepted for. */
module Cancellation {
  import opened Wrappers
  import opened Rows
  import opened Dispatch
  import opened System
  import opened Lifecycle

  predicate GaveUp(run: Run) {
    (run.status == Failed || run.status == NotApplicable) && run.findingCount == 0
  }

  /** A collector that has not passed its cancellation check, or was turned away by it. */
  predicate Barred(p: Progress, run: Run) {
    match p
    case Waiting => true
    case Started => true
    case Closing(status, _) => status == Failed || status == NotApplicable
    case Over => GaveUp(run)
    case _ => false
  }

  /** The same, wherever the dispatch stands. */
  predicate BarredIn(stage: Stage, job: Job, r: nat) {
    && r < |job.runs|
    && match stage
       case Loading => job.runs[r].status.Pending()
       case Seeding(pending) => r in pending
       case Dispatching(progress, _) => |progress| == |job.runs| && Barred(progress[r], job.runs[r])
       case Finished => GaveUp(job.runs[r])
  }

  predicate StaysBarred(s: System, t: nat, r: nat) {
    t in s.calls && s.calls[t].cancelled && (s.calls[t].job in s.jobs ==> BarredIn(s.calls[t].stage, s.jobs[s.calls[t].job], r))
  }

  lemma MoveStaysBarred(limit: nat, job: Job, stage: Stage, move: Move, r: nat)
    requires RowsOk(job) && StatusOk(Up, job, Some(stage)) && BarredIn(stage, job, r)
    requires MoveJob(limit, true, stage, job, move).Some?
    ensures var (job', stage') := MoveJob(limit, true, stage, job, move).value; BarredIn(stage', job', r)
  {
    assert RunOk(job.runs[r]);
    match stage
    case Loading =>
    case Seeding(_) =>
    case Dispatching(progress, permits) =>
      assert Agrees(progress[r], job.runs[r]);
    case Finished =>
  }

  lemma CallJobIsUsed(s: System, t: nat)
    requires Reached(s) && t in s.calls
    ensures s.calls[t].job in s.used
  {
    InvOf(s);
    assert CallOk(s, t);
  }

  lemma NextStaysBarred(s: System, step: Step, t: nat, r: nat)
    requires Reached(s) && StaysBarred(s, t, r) && t in Next(s, step).calls
    ensures StaysBarred(Next(s, step), t, r)
  {
    var c := s.calls[t];
    if c.job !in s.jobs {
      CallJobIsUsed(s, t);
      GoneCall(s, step, t);
    } else if step.Advance? && step.t == t {
      if s.phase == Up && MoveJob(s.limit, true, c.stage, s.jobs[c.job], step.move).Some? {
        DrivenRow(s, t);
        MoveStaysBarred(s.limit, s.jobs[c.job], c.stage, step.move, r);
      }
    } else {
      OnlyThisCall(s, step, t);
    }
  }

  lemma {:induction false} ExecStaysBarred(s: System, steps: seq<Step>, t: nat, r: nat)
    requires Reached(s) && StaysBarred(s, t, r) && t in Exec(s, steps).calls
    ensures StaysBarred(Exec(s, steps), t, r)
    decreases |steps|
  {
    if steps != [] {
      var s1 := Next(s, steps[0]);
      if t !in s1.calls {
        CallHasItsJob(s, t);
        LeftForGood(s1, steps[1..], t);
      }
      ReachedNext(s, steps[0]);
      NextStaysBarred(s, steps[0], t, r);
      ExecStaysBarred(s1, steps[1..], t, r);
    }
  }

  // ---------- the job's own status ----------

  predicate SeedKeepsUp(steps: seq<Step>, t: nat) {
    forall i :: 0 <= i < |steps| ==> !(steps[i].Advance? && steps[i].t == t && steps[i].move.SeedFails?)
  }

  predicate BoundToCancel(s: System, t: nat) {
    && t in s.calls && s.calls[t].cancelled
    && (s.calls[t].stage == Finished && s.calls[t].job in s.jobs ==> s.jobs[s.calls[t].job].status == Canceled)
  }

  lemma NextBoundToCancel(s: System, step: Step, t: nat)
    requires Reached(s) && BoundToCancel(s, t) && t in Next(s, step).calls
    requires !(step.Advance? && step.t == t && step.move.SeedFails?)
    ensures BoundToCancel(Next(s, step), t)
  {
    var c := s.calls[t];
    if c.job !in s.jobs {
      CallJobIsUsed(s, t);
      GoneCall(s, step, t);
    } else if step.Advance? && step.t == t {
    } else {
      OnlyThisCall(s, step, t);
    }
  }

  lemma {:induction false} ExecBoundToCancel(s: System, steps: seq<Step>, t: nat)
    requires Reached(s) && BoundToCancel(s, t) && SeedKeepsUp(steps, t) && t in Exec(s, steps).calls
    ensures BoundToCancel(Exec(s, steps), t)
    decreases |steps|
  {
    if steps != [] {
      var s1 := Next(s, steps[0]);
      if t !in s1.calls {
        CallHasItsJob(s, t);
        LeftForGood(s1, steps[1..], t);
      }
      ReachedNext(s, steps[0]);
      NextBoundToCancel(s, steps[0], t);
      assert forall i :: 0 <= i < |steps[1..]| ==> steps[1..][i] == steps[i + 1];
      ExecBoundToCancel(s1, steps[1..], t);
    }
  }

  // ---------- the two guarantees ----------

  lemma CancelSetsTheEvent(s: System, j: JobId, now: int, id: int)
    requires Reached(s) && s.phase == Up && j in s.jobs && s.jobs[j].status == JobRunning && Active(s, j)
    ensures var s' := Next(s, Cancel(j, now, id));
            && s.registry[j] in s.calls && s'.jobs == s.jobs
            && s'.calls == s.calls[s.registry[j] := s.calls[s.registry[j]].(cancelled := true)]
            && s.calls[s.registry[j]].job == j && s.calls[s.registry[j]].stage != Finished
  {
    InvOf(s);
    RowOf(s, j);
  }

  /** From the moment a cancellation is accepted for a running job, every collector that had not passed
      its check never runs its body in that dispatch, and ends FAILED or NOT_APPLICABLE with no findings. */
  lemma CancelledCollectorsNeverRun(limit: nat, before: seq<Step>, j: JobId, now: int, id: int, steps: seq<Step>, r: nat)
    requires var s := Exec(Init(limit), before);
             && s.phase == Up && j in s.jobs && s.jobs[j].status == JobRunning && Active(s, j)
             && s.registry[j] in s.calls && BarredIn(s.calls[s.registry[j]].stage, s.jobs[j], r)
    requires var s := Exec(Init(limit), before);
             s.registry[j] in Exec(Next(s, Cancel(j, now, id)), steps).calls
    ensures var s := Exec(Init(limit), before); var t := s.registry[j];
            var s' := Exec(Next(s, Cancel(j, now, id)), steps);
            && s'.calls[t].job == j
            && (j in s'.jobs ==> BarredIn(s'.calls[t].stage, s'.jobs[j], r))
            && (j in s'.jobs && s'.calls[t].stage == Finished ==> GaveUp(s'.jobs[j].runs[r]))
  {
    var s := Exec(Init(limit), before);
    var t := s.registry[j];
    assert Reached(s);
    CancelSetsTheEvent(s, j, now, id);
    var s1 := Next(s, Cancel(j, now, id));
    ReachedNext(s, Cancel(j, now, id));
    ExecStaysBarred(s1, steps, t, r);
    ExecFollows(s1, steps, t);
  }

  /** If that dispatch then finalizes, the job is CANCELED whatever its runs came to; only a failed
      seeding takes precedence. */
  lemma CancelledDispatchEndsCanceled(limit: nat, before: seq<Step>, j: JobId, now: int, id: int, steps: seq<Step>)
    requires var s := Exec(Init(limit), before);
             && s.phase == Up && j in s.jobs && s.jobs[j].status == JobRunning && Active(s, j)
    requires var s := Exec(Init(limit), before);
             && SeedKeepsUp(steps, s.registry[j])
             && s.registry[j] in Exec(Next(s, Cancel(j, now, id)), steps).calls
    ensures var s := Exec(Init(limit), before); var t := s.registry[j];
            var s' := Exec(Next(s, Cancel(j, now, id)), steps);
            s'.calls[t].stage == Finished && j in s'.jobs ==> s'.jobs[j].status == Canceled
  {
    var s := Exec(Init(limit), before);
    var t := s.registry[j];
    assert Reached(s);
    CancelSetsTheEvent(s, j, now, id);
    ReachedNext(s, Cancel(j, now, id));
    var s1 := Next(s, Cancel(j, now, id));
    ExecBoundToCancel(s1, steps, t);
    ExecFollows(s1, steps, t);
  }
}
