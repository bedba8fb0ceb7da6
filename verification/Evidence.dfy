/** Which findings a job holds, across crashes and retries. */
module Evidence {
  import opened Sums
  import opened Rows
  import opened Dispatch
  import opened System
  import opened Lifecycle

  /** A job's findings are those its runs recorded plus those whose attempt has not recorded them: it is
      either about to, or was killed between its two commits. */
  lemma FindingsAreAccountedFor(limit: nat, steps: seq<Step>, j: JobId, name: string)
    requires j in Exec(Init(limit), steps).jobs
    ensures var job := Exec(Init(limit), steps).jobs[j];
            Sum(job.findings, FoundBy(name)) == Sum(job.runs, FindingCountOf(name)) + Sum(job.runs, LostOf(name))
  {
    var s := Exec(Init(limit), steps);
    Reachable(limit, steps);
    assert JobOk(s.limit, s.phase, s.jobs[j], StageOf(s, j));
    assert LedgerFor(s.jobs[j], name);
    SumSplit(s.jobs[j].runs, CommittedOf(name), FindingCountOf(name), LostOf(name));
  }

  /** Findings wait unrecorded only inside a live attempt that stands between its two commits. */
  lemma UnrecordedMeansBetweenCommits(limit: nat, steps: seq<Step>, j: JobId, r: nat)
    requires var s := Exec(Init(limit), steps); j in s.jobs && r < |s.jobs[j].runs| && s.jobs[j].runs[r].unrecorded > 0
    ensures var s := Exec(Init(limit), steps);
            && j in s.registry && s.registry[j] in s.calls && s.calls[s.registry[j]].stage.Dispatching?
            && r < |s.calls[s.registry[j]].stage.progress|
            && s.calls[s.registry[j]].stage.progress[r] == Persisted(s.jobs[j].runs[r].unrecorded)
  {
    var s := Exec(Init(limit), steps);
    Reachable(limit, steps);
    assert JobOk(s.limit, s.phase, s.jobs[j], StageOf(s, j));
    assert RunOk(s.jobs[j].runs[r]);
    if StageOf(s, j).None? || !StageOf(s, j).value.Dispatching? {
      NoneRunning(s, j);
    } else {
      assert Agrees(s.calls[s.registry[j]].stage.progress[r], s.jobs[j].runs[r]);
    }
  }

  predicate NoKill(steps: seq<Step>) {
    forall i :: 0 <= i < |steps| ==> !steps[i].Kill?
  }

  predicate NoOrphans(s: System) {
    forall j :: j in s.jobs ==> NoOrphansIn(s.jobs[j])
  }

  predicate NoOrphansIn(job: Job) {
    forall i :: 0 <= i < |job.runs| ==> job.runs[i].orphaned == 0
  }

  lemma MoveNoOrphans(limit: nat, cancelled: bool, job: Job, stage: Stage, move: Move)
    requires NoOrphansIn(job) && MoveJob(limit, cancelled, stage, job, move).Some?
    ensures NoOrphansIn(MoveJob(limit, cancelled, stage, job, move).value.0)
  {
  }

  lemma NextNoOrphans(s: System, step: Step)
    requires NoOrphans(s) && !step.Kill? && forall j :: j in s.jobs ==> j in s.used
    ensures NoOrphans(Next(s, step))
  {
    forall j | j in Next(s, step).jobs ensures NoOrphansIn(Next(s, step).jobs[j]) {
      if j in s.jobs && !Touches(s, step, j) {
      } else if step.Advance? && j in s.jobs {
        var c := s.calls[step.t];
        if MoveJob(s.limit, c.cancelled, c.stage, s.jobs[j], step.move).Some? {
          MoveNoOrphans(s.limit, c.cancelled, s.jobs[j], c.stage, step.move);
        }
      } else if j in s.jobs {
        assert NoOrphansIn(s.jobs[j]);
      }
    }
  }

  lemma {:induction false} ExecNoOrphans(s: System, steps: seq<Step>)
    requires Reached(s) && NoOrphans(s) && NoKill(steps)
    ensures NoOrphans(Exec(s, steps))
    decreases |steps|
  {
    if steps != [] {
      ReachedNext(s, steps[0]);
      forall j | j in s.jobs ensures j in s.used { RowIsUsed(s, j); }
      NextNoOrphans(s, steps[0]);
      assert forall i :: 0 <= i < |steps[1..]| ==> steps[1..][i] == steps[i + 1];
      ExecNoOrphans(Next(s, steps[0]), steps[1..]);
    }
  }

  /** Without a crash, however often collectors were retried, an idle job holds exactly the findings its
      runs report. */
  lemma CrashFreeFindings(limit: nat, steps: seq<Step>, j: JobId, name: string)
    requires NoKill(steps) && j in Exec(Init(limit), steps).jobs && !Active(Exec(Init(limit), steps), j)
    ensures var job := Exec(Init(limit), steps).jobs[j];
            Sum(job.findings, FoundBy(name)) == Sum(job.runs, FindingCountOf(name))
  {
    var s := Exec(Init(limit), steps);
    assert Exec(Init(limit), []) == Init(limit);
    assert Reached(Init(limit));
    ExecNoOrphans(Init(limit), steps);
    FindingsAreAccountedFor(limit, steps, j, name);
    var job := s.jobs[j];
    assert NoOrphansIn(job);
    forall i | 0 <= i < |job.runs| ensures LostOf(name)(job.runs[i]) == 0 {
      if job.runs[i].unrecorded > 0 { UnrecordedMeansBetweenCommits(limit, steps, j, i); }
    }
    SumZero(job.runs, LostOf(name));
  }

  /** The same for one run, where the finding rows tell it from the others: alone under its name, it has
      persisted what it reports and what its attempts committed without reporting; without a crash, and idle,
      exactly what it reports. */
  lemma FindingsOfALoneRun(limit: nat, steps: seq<Step>, j: JobId, r: nat)
    requires var s := Exec(Init(limit), steps);
             && j in s.jobs && r < |s.jobs[j].runs|
             && forall q :: 0 <= q < |s.jobs[j].runs| && q != r ==> s.jobs[j].runs[q].collector != s.jobs[j].runs[r].collector
    ensures var s := Exec(Init(limit), steps); var run := s.jobs[j].runs[r];
            && Sum(s.jobs[j].findings, FoundBy(run.collector)) == run.findingCount + run.unrecorded + run.orphaned
            && (NoKill(steps) && !Active(s, j) ==> Sum(s.jobs[j].findings, FoundBy(run.collector)) == run.findingCount)
  {
    var s := Exec(Init(limit), steps);
    var job := s.jobs[j];
    var name := job.runs[r].collector;
    FindingsAreAccountedFor(limit, steps, j, name);
    SumOfOne(job.runs, r, FindingCountOf(name));
    SumOfOne(job.runs, r, LostOf(name));
    if NoKill(steps) && !Active(s, j) { CrashFreeFindings(limit, steps, j, name); }
  }
}
