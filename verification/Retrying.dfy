/** When a job can be put back to work: which failures a retry accepts, and which RUNNING jobs nothing
    can move any more. */
module Retrying {
  import opened Wrappers
  import opened Rows
  import opened Dispatch
  import opened System
  import opened Lifecycle

  predicate Distinct(names: seq<string>) {
    forall i, k :: 0 <= i < k < |names| ==> names[i] != names[k]
  }

  /** A FAILED run that shares its collector name with no other run of the job. */
  predicate LoneFailure(job: Job, r: nat) {
    && r < |job.runs| && job.runs[r].status == Failed
    && forall q :: 0 <= q < |job.runs| && job.runs[q].collector == job.runs[r].collector ==> q == r
  }

  lemma AcceptsIffLone(s: System, j: JobId)
    requires j in s.jobs && !Active(s, j)
    ensures (exists name: string :: RetryAccepts(s, j, name)) <==> (exists r: nat :: LoneFailure(s.jobs[j], r))
  {
    var job := s.jobs[j];
    if r: nat :| LoneFailure(job, r) {
      assert Named(job, job.runs[r].collector) == {r};
      assert RetryAccepts(s, j, job.runs[r].collector);
    }
    if name: string :| RetryAccepts(s, j, name) {
      var r: nat :| Named(job, name) == {r} && r < |job.runs| && job.runs[r].status == Failed;
      assert r in Named(job, name);
      forall q | 0 <= q < |job.runs| && job.runs[q].collector == job.runs[r].collector ensures q == r {
        assert q in Named(job, name);
      }
      assert LoneFailure(job, r);
    }
  }

  /** A job that ended FAILED or with warnings can be retried if and only if one of its failures is the
      only run of its collector. */
  lemma FailureIsRetryable(limit: nat, steps: seq<Step>, j: JobId)
    requires var s := Exec(Init(limit), steps);
             && j in s.jobs && !Active(s, j)
             && (s.jobs[j].status == JobFailed || s.jobs[j].status == CompletedWithWarnings)
    ensures var s := Exec(Init(limit), steps);
            && Has(s.jobs[j], Failed)
            && ((exists name: string :: RetryAccepts(s, j, name)) <==> (exists r: nat :: LoneFailure(s.jobs[j], r)))
  {
    var s := Exec(Init(limit), steps);
    TerminalJobs(limit, steps, j);
    AcceptsIffLone(s, j);
  }

  /** A job is created from these sources while the application serves, and everything in `after` follows. */
  function Final(limit: nat, before: seq<Step>, j: JobId, sources: seq<string>, now: int, after: seq<Step>): System {
    Exec(Next(Exec(Init(limit), before), Create(j, sources, now)), after)
  }

  predicate EndsInFailure(limit: nat, before: seq<Step>, j: JobId, sources: seq<string>, now: int, after: seq<Step>) {
    var s, s' := Exec(Init(limit), before), Final(limit, before, j, sources, now, after);
    && s.phase == Up && j !in s.used
    && j in s'.jobs && !Active(s', j) && (s'.jobs[j].status == JobFailed || s'.jobs[j].status == CompletedWithWarnings)
  }

  predicate LeavesARetry(limit: nat, before: seq<Step>, j: JobId, sources: seq<string>, now: int, after: seq<Step>) {
    exists name :: name in sources && RetryAccepts(Final(limit, before, j, sources, now, after), j, name)
  }

  ghost predicate AlwaysRetryable(limit: nat, sources: seq<string>) {
    forall before, j, now, after :: EndsInFailure(limit, before, j, sources, now, after) ==> LeavesARetry(limit, before, j, sources, now, after)
  }

  /** With distinct sources every such failure leaves a collector that a retry accepts. */
  lemma DistinctSourcesRetry(limit: nat, before: seq<Step>, j: JobId, sources: seq<string>, now: int, after: seq<Step>)
    requires |sources| > 0 && Distinct(sources) && EndsInFailure(limit, before, j, sources, now, after)
    ensures LeavesARetry(limit, before, j, sources, now, after)
  {
    var s := Exec(Init(limit), before);
    var s1 := Next(s, Create(j, sources, now));
    assert Reached(s);
    ReachedNext(s, Create(j, sources, now));
    ReachedExec(s1, after);
    ExecGrows(s1, after, j);
    HasFailure(Exec(s1, after), j);
    DistinctRunsRetry(Exec(s1, after), j, sources, now);
  }

  lemma HasFailure(s: System, j: JobId)
    requires Reached(s) && j in s.jobs && (s.jobs[j].status == JobFailed || s.jobs[j].status == CompletedWithWarnings)
    ensures Has(s.jobs[j], Failed)
  {
    RowOf(s, j);
    assert TerminalOk(s.jobs[j]);
  }

  lemma DistinctRunsRetry(s: System, j: JobId, sources: seq<string>, now: int)
    requires j in s.jobs && !Active(s, j) && Has(s.jobs[j], Failed)
    requires Distinct(sources) && Grows(NewJob(sources, now), s.jobs[j])
    ensures exists name: string :: name in sources && RetryAccepts(s, j, name)
  {
    var job := s.jobs[j];
    assert forall i :: 0 <= i < |job.runs| ==> RunGrows(NewJob(sources, now).runs[i], job.runs[i]);
    var r: nat :| r < |job.runs| && job.runs[r].status == Failed;
    assert Named(job, sources[r]) == {r};
    assert RetryAccepts(s, j, sources[r]);
  }

  // ---------- building runs by hand ----------

  function Serving(limit: nat): System { Init(limit).(phase := Up) }

  /** The state with one job, driven by call 0. */
  function Solo(limit: nat, job: Job, stage: Stage): System {
    System(limit, Up, map["j" := job], map[0 := Call("j", false, stage)], map["j" := 0], 1, {"j"})
  }

  /** One more move of call 0, at the end of a run that led to a solo state. */
  lemma Then(limit: nat, steps: seq<Step>, job: Job, stage: Stage, move: Move)
    returns (steps': seq<Step>, job': Job, stage': Stage)
    requires Exec(Init(limit), steps) == Solo(limit, job, stage)
    requires MoveJob(limit, false, stage, job, move).Some?
    ensures Exec(Init(limit), steps') == Solo(limit, job', stage')
    ensures (job', stage') == MoveJob(limit, false, stage, job, move).value && steps <= steps'
  {
    job', stage' := MoveJob(limit, false, stage, job, move).value.0, MoveJob(limit, false, stage, job, move).value.1;
    steps' := steps + [Advance(0, move)];
    ExecAppend(Init(limit), steps, Advance(0, move));
  }

  /** Serving, with nothing in the database. */
  const OPENING: seq<Step> := [RecoverRows, Serve]

  lemma ClaimsOneJob(limit: nat, sources: seq<string>) returns (steps: seq<Step>)
    requires |sources| > 0
    ensures Exec(Init(limit), OPENING) == Serving(limit) && OPENING + [Create("j", sources, 0)] <= steps
    ensures Exec(Init(limit), steps) == Solo(limit, ClaimJob(NewJob(sources, 0), 0), Loading)
  {
    var s1 := Next(Serving(limit), Create("j", sources, 0));
    ExecAppend(Init(limit), OPENING, Create("j", sources, 0));
    steps := OPENING + [Create("j", sources, 0)];
    assert s1.jobs == map["j" := NewJob(sources, 0)];
    ExecAppend(Init(limit), steps, Claim("j", 0));
    steps := steps + [Claim("j", 0)];
    assert Next(s1, Claim("j", 0)).jobs == map["j" := ClaimJob(NewJob(sources, 0), 0)];
    assert Next(s1, Claim("j", 0)).calls == map[0 := Call("j", false, Loading)];
  }

  // ---------- a source selected twice ----------

  /** Part of the way through a dispatch of a job of these sources: each run waits or is over, and those over
      have FAILED under the one name and are DONE under every other. */
  predicate PartWay(limit: nat, steps: seq<Step>, job: Job, progress: seq<Progress>, names: seq<string>, failing: string) {
    && |progress| == |job.runs| == |names| && job.status == JobRunning
    && Exec(Init(limit), steps) == Solo(limit, job, Dispatching(progress, limit))
    && forall i :: 0 <= i < |names| ==> RunPartWay(job.runs[i], progress[i], names[i], failing)
  }

  predicate RunPartWay(run: Run, p: Progress, name: string, failing: string) {
    && run.collector == name && (p == Waiting || p == Over)
    && (p == Over ==> run.status == if name == failing then Failed else Done)
  }

  predicate MayStart(job: Job, progress: seq<Progress>, r: nat)
    requires |progress| == |job.runs|
  {
    r < |progress| && progress[r] == Waiting && (Deferred(job.runs[r]) ==> GatherDone(job, progress))
  }

  lemma CollectorStarts(limit: nat, before: seq<Step>, start: Job, progress: seq<Progress>, r: nat) returns (steps: seq<Step>, job: Job, permits: nat)
    requires |progress| == |start.runs| && Exec(Init(limit), before) == Solo(limit, start, Dispatching(progress, limit))
    requires limit > 0 && MayStart(start, progress, r) && forall i :: 0 <= i < |progress| ==> !progress[i].InFlight()
    ensures before <= steps && Exec(Init(limit), steps) == Solo(limit, job, Dispatching(progress[r := Body], permits))
    ensures permits + (if Deferred(start.runs[r]) then 0 else 1) == limit
    ensures job.status == start.status && |job.runs| == |start.runs| && job.runs == start.runs[r := job.runs[r]]
    ensures job.runs[r].collector == start.runs[r].collector
  {
    IdsAscend(limit, before, "j");
    var stage := Dispatching(progress, limit);
    steps, job, stage := Then(limit, before, start, stage, Start(r, NextId(start)));
    steps, job, stage := Then(limit, steps, job, stage, Check(r));
    assert stage.progress == progress[r := Body];
    permits := stage.permits;
  }

  lemma CollectorReturns(limit: nat, before: seq<Step>, start: Job, progress: seq<Progress>, permits: nat, r: nat, fails: bool)
    returns (steps: seq<Step>, job: Job, p: Progress)
    requires |progress| == |start.runs| && r < |progress| && progress[r] == Body
    requires Exec(Init(limit), before) == Solo(limit, start, Dispatching(progress, permits))
    ensures before <= steps && Exec(Init(limit), steps) == Solo(limit, job, Dispatching(progress[r := p], permits))
    ensures p == if fails then Closing(Failed, Some("unexpected_error")) else Persisted(0)
    ensures job.status == start.status && |job.runs| == |start.runs| && job.runs == start.runs[r := job.runs[r]]
    ensures job.runs[r].collector == start.runs[r].collector
  {
    var stage := Dispatching(progress, permits);
    if fails {
      steps, job, stage := Then(limit, before, start, stage, Raise(r, Failed, "unexpected_error"));
    } else {
      steps, job, stage := Then(limit, before, start, stage, Return(r, []));
      steps, job, stage := Then(limit, steps, job, stage, Persist(r));
      assert stage.progress == progress[r := Persisted(0)];
    }
    p := stage.progress[r];
  }

  lemma CollectorEnds(limit: nat, before: seq<Step>, start: Job, progress: seq<Progress>, permits: nat, r: nat, fails: bool)
    returns (steps: seq<Step>, job: Job)
    requires |progress| == |start.runs| && r < |progress| && progress[r] == Body
    requires Exec(Init(limit), before) == Solo(limit, start, Dispatching(progress, permits))
    ensures before <= steps
    ensures Exec(Init(limit), steps)
            == Solo(limit, job, Dispatching(progress[r := Over], if Deferred(start.runs[r]) then permits else permits + 1))
    ensures job.status == start.status && |job.runs| == |start.runs| && job.runs == start.runs[r := job.runs[r]]
    ensures job.runs[r].collector == start.runs[r].collector && job.runs[r].status == if fails then Failed else Done
  {
    var p;
    steps, job, p := CollectorReturns(limit, before, start, progress, permits, r, fails);
    IdsAscend(limit, steps, "j");
    var stage := Dispatching(progress[r := p], permits);
    steps, job, stage := Then(limit, steps, job, stage, Finish(r, NextId(job)));
    assert stage.progress == progress[r := Over];
  }

  lemma OneMoreIsOver(limit: nat, before: seq<Step>, start: Job, progress: seq<Progress>, names: seq<string>, failing: string, r: nat)
    returns (steps: seq<Step>, job: Job)
    requires limit > 0 && PartWay(limit, before, start, progress, names, failing) && MayStart(start, progress, r)
    ensures before <= steps && PartWay(limit, steps, job, progress[r := Over], names, failing)
  {
    forall i | 0 <= i < |progress| ensures !progress[i].InFlight() { assert RunPartWay(start.runs[i], progress[i], names[i], failing); }
    assert RunPartWay(start.runs[r], progress[r], names[r], failing);
    var permits;
    steps, job, permits := CollectorStarts(limit, before, start, progress, r);
    var started := job;
    steps, job := CollectorEnds(limit, steps, job, progress[r := Body], permits, r, names[r] == failing);
    assert progress[r := Body][r := Over] == progress[r := Over];
    forall i | 0 <= i < |names| ensures RunPartWay(job.runs[i], progress[r := Over][i], names[i], failing) {
      assert RunPartWay(start.runs[i], progress[i], names[i], failing);
      if i != r { assert job.runs[i] == started.runs[i] == start.runs[i]; }
    }
  }

  /** Runs everything of one kind, one after the other. */
  lemma AllOfAKindAreOver(limit: nat, before: seq<Step>, start: Job, from: seq<Progress>, names: seq<string>, failing: string, deferred: bool)
    returns (steps: seq<Step>, job: Job, progress: seq<Progress>)
    requires limit > 0 && PartWay(limit, before, start, from, names, failing)
    requires deferred ==> forall i :: 0 <= i < |names| && names[i] != TECHNOLOGY ==> from[i] == Over
    ensures before <= steps && PartWay(limit, steps, job, progress, names, failing)
    ensures forall i :: 0 <= i < |names| ==> progress[i] == from[i] || progress[i] == Over
    ensures forall i :: 0 <= i < |names| && (names[i] == TECHNOLOGY) == deferred ==> progress[i] == Over
  {
    steps, job, progress := before, start, from;
    var r := 0;
    while r < |names|
      invariant r <= |names| && before <= steps && PartWay(limit, steps, job, progress, names, failing)
      invariant forall i :: 0 <= i < |names| ==> progress[i] == from[i] || progress[i] == Over
      invariant forall i :: 0 <= i < r && (names[i] == TECHNOLOGY) == deferred ==> progress[i] == Over
    {
      assert RunPartWay(job.runs[r], progress[r], names[r], failing);
      if (names[r] == TECHNOLOGY) == deferred && progress[r] == Waiting {
        steps, job := OneMoreIsOver(limit, steps, job, progress, names, failing, r);
        progress := progress[r := Over];
      }
      r := r + 1;
    }
  }

  lemma DispatchBegins(limit: nat, sources: seq<string>, failing: string) returns (steps: seq<Step>, job: Job, progress: seq<Progress>)
    requires |sources| > 0
    ensures Exec(Init(limit), OPENING) == Serving(limit) && OPENING + [Create("j", sources, 0)] <= steps
    ensures PartWay(limit, steps, job, progress, sources, failing)
  {
    steps := ClaimsOneJob(limit, sources);
    job := ClaimJob(NewJob(sources, 0), 0);
    var stage := Loading;
    steps, job, stage := Then(limit, steps, job, stage, Load);
    steps, job, stage := Then(limit, steps, job, stage, SeedSucceeds);
    progress := stage.progress;
    forall i | 0 <= i < |sources| ensures RunPartWay(job.runs[i], progress[i], sources[i], failing) {
      assert job.runs[i] == NewRun(sources[i]) && i in PendingRuns(job);
    }
  }

  /** Selecting a source twice defeats the retry, whatever the other sources: both its runs fail, the others are
      DONE, and no retry by name is accepted. */
  lemma DuplicateSourcesDefeatRetry(limit: nat, sources: seq<string>, a: nat, b: nat) returns (after: seq<Step>)
    requires limit > 0 && a < b < |sources| && sources[a] == sources[b]
    ensures EndsInFailure(limit, OPENING, "j", sources, 0, after)
    ensures forall name: string :: !RetryAccepts(Final(limit, OPENING, "j", sources, 0, after), "j", name)
  {
    var failing := sources[a];
    var steps, job, progress := DispatchBegins(limit, sources, failing);
    steps, job, progress := AllOfAKindAreOver(limit, steps, job, progress, sources, failing, false);
    steps, job, progress := AllOfAKindAreOver(limit, steps, job, progress, sources, failing, true);
    var closed;
    steps, closed := ClosesFailed(limit, steps, job, progress, sources, failing, a);
    var first := OPENING + [Create("j", sources, 0)];
    after := steps[|first|..];
    assert steps == first + after;
    ExecConcat(Init(limit), first, after);
    ExecAppend(Init(limit), OPENING, Create("j", sources, 0));
    assert Final(limit, OPENING, "j", sources, 0, after) == Exec(Init(limit), steps);
    assert forall r: nat :: LoneFailure(closed, r) ==> LoneFailure(job, r);
    AcceptsIffLone(Exec(Init(limit), steps), "j");
  }

  lemma ClosesFailed(limit: nat, before: seq<Step>, job: Job, progress: seq<Progress>, names: seq<string>, failing: string, a: nat)
    returns (steps: seq<Step>, closed: Job)
    requires PartWay(limit, before, job, progress, names, failing) && a < |names| && names[a] == failing
    requires forall i :: 0 <= i < |names| ==> progress[i] == Over
    ensures before <= steps && closed.runs == job.runs && (closed.status == JobFailed || closed.status == CompletedWithWarnings)
    ensures var s := Exec(Init(limit), steps); s.phase == Up && s.registry == map[] && s.jobs == map["j" := closed]
  {
    IdsAscend(limit, before, "j");
    assert RunPartWay(job.runs[a], progress[a], names[a], failing);
    FinalizesFailed(job, NextId(job));
    var stage;
    steps, closed, stage := Then(limit, before, job, Dispatching(progress, limit), Finalize(0, NextId(job)));
    ExecAppend(Init(limit), steps, Leave(0));
    steps := steps + [Leave(0)];
  }

  lemma FinalizesFailed(job: Job, id: int)
    requires Has(job, Failed)
    ensures var status := FinalizeJob(job, false, 0, id).status; status == JobFailed || status == CompletedWithWarnings
  {
    StatusesHas(job, Failed);
  }

  /** For any positive limit: every job of these sources that ends FAILED or with warnings leaves a collector
      that a retry accepts, whatever happened before and meanwhile, if and only if no source is selected twice. */
  lemma RetryableIffDistinct(limit: nat, sources: seq<string>)
    requires limit > 0 && |sources| > 0
    ensures AlwaysRetryable(limit, sources) <==> Distinct(sources)
  {
    if Distinct(sources) {
      forall before, j, now, after | EndsInFailure(limit, before, j, sources, now, after)
        ensures LeavesARetry(limit, before, j, sources, now, after)
      {
        DistinctSourcesRetry(limit, before, j, sources, now, after);
      }
    } else {
      var a, b :| 0 <= a < b < |sources| && sources[a] == sources[b];
      var after := DuplicateSourcesDefeatRetry(limit, sources, a, b);
      assert !LeavesARetry(limit, OPENING, "j", sources, 0, after);
    }
  }

  // ---------- jobs left RUNNING ----------

  /** RUNNING, but no call drives it and it has nothing left to run. */
  predicate Stranded(s: System, j: JobId) {
    j in s.jobs && s.jobs[j].status == JobRunning && AllTerminal(s.jobs[j]) && !Active(s, j)
  }

  /** While the application serves, an idle RUNNING job is always a stranded one. */
  lemma IdleRunningIsStranded(limit: nat, steps: seq<Step>, j: JobId)
    requires var s := Exec(Init(limit), steps);
             s.phase == Up && j in s.jobs && s.jobs[j].status == JobRunning && !Active(s, j)
    ensures Stranded(Exec(Init(limit), steps), j)
  {
    var s := Exec(Init(limit), steps);
    Reachable(limit, steps);
    assert JobOk(s.limit, s.phase, s.jobs[j], StageOf(s, j));
  }

  function Resumes(ids: seq<JobId>): seq<Step> {
    seq(|ids|, i requires 0 <= i < |ids| => Resume(ids[i]))
  }

  lemma {:induction false} ResumesOnlyRegister(s: System, ids: seq<JobId>)
    ensures var s' := Exec(s, Resumes(ids));
            s'.jobs == s.jobs && s'.phase == s.phase && forall k :: k in s'.registry ==> k in s.registry || Resumable(s, k)
    decreases |ids|
  {
    if ids != [] {
      var s1 := Next(s, Resume(ids[0]));
      assert Resumes(ids)[1..] == Resumes(ids[1..]) && Resumes(ids)[0] == Resume(ids[0]);
      ResumesOnlyRegister(s1, ids[1..]);
      forall k | k in Exec(s, Resumes(ids)).registry ensures k in s.registry || Resumable(s, k) {
        if k !in s1.registry { assert Resumable(s1, k); }
      }
    }
  }

  /** The process dies and starts again, in the order of the lifespan. */
  function Restart(cutoff: int, ids: seq<JobId>): seq<Step> {
    [Kill, RecoverRows, Step.Sweep(cutoff)] + Resumes(ids) + [Serve]
  }

  lemma RestartInSteps(s: System, cutoff: int, ids: seq<JobId>)
    ensures var s3 := Next(Next(Next(s, Kill), RecoverRows), Step.Sweep(cutoff));
            Exec(s, Restart(cutoff, ids)) == Next(Exec(s3, Resumes(ids)), Serve)
  {
    var head := [Kill, RecoverRows, Step.Sweep(cutoff)];
    ExecAppend(s, head + Resumes(ids), Serve);
    ExecConcat(s, head, Resumes(ids));
    assert head == [Kill, RecoverRows] + [Step.Sweep(cutoff)] && [Kill, RecoverRows] == [Kill] + [RecoverRows] && [Kill] == [] + [Kill];
    ExecAppend(s, [Kill, RecoverRows], Step.Sweep(cutoff));
    ExecAppend(s, [Kill], RecoverRows);
    ExecAppend(s, [], Kill);
  }

  lemma InterruptedIsNotTerminal(job: Job)
    ensures AllTerminal(Recover(Crash(job))) <==> AllTerminal(job)
    ensures Recover(Crash(job)).status == job.status && Recover(Crash(job)).finishedAt == job.finishedAt
  {
    var job' := Recover(Crash(job));
    assert forall i :: 0 <= i < |job.runs| ==> job'.runs[i] == InterruptRun(KillAttempt(job.runs[i]));
    if AllTerminal(job') {
      forall i | 0 <= i < |job.runs| ensures job.runs[i].status.Terminal() { assert job'.runs[i].status.Terminal(); }
    }
  }

  /** Up to the resumption: nothing is driven, and a RUNNING job has only had its RUNNING runs interrupted. */
  lemma Recovers(s: System, cutoff: int, j: JobId)
    requires j in s.jobs
    ensures var s3 := Next(Next(Next(s, Kill), RecoverRows), Step.Sweep(cutoff));
            && s3.registry == map[] && s3.phase == Recovered
            && (j in s3.jobs ==> s3.jobs[j] == Recover(Crash(s.jobs[j])))
            && (s.jobs[j].status == JobRunning ==> j in s3.jobs)
  {
    var s1 := Next(s, Kill);
    assert s1.jobs[j] == Crash(s.jobs[j]);
    var s2 := Next(s1, RecoverRows);
    assert s2.jobs[j] == Recover(Crash(s.jobs[j]));
    InterruptedIsNotTerminal(s.jobs[j]);
  }

  lemma ServesWhatItResumed(s: System, j: JobId)
    requires Next(s, Serve).phase == Up && s.phase == Recovered
    ensures Next(s, Serve).jobs == s.jobs && Next(s, Serve).registry == s.registry
  {
  }

  /** A crash strands exactly the jobs that are RUNNING with every run terminal when it comes: the restart
      resumes every other RUNNING job. */
  lemma CrashStrands(s: System, cutoff: int, ids: seq<JobId>, j: JobId)
    requires j in s.jobs && Exec(s, Restart(cutoff, ids)).phase == Up
    ensures Stranded(Exec(s, Restart(cutoff, ids)), j) <==> s.jobs[j].status == JobRunning && AllTerminal(s.jobs[j])
  {
    var s3 := Next(Next(Next(s, Kill), RecoverRows), Step.Sweep(cutoff));
    var s4 := Exec(s3, Resumes(ids));
    RestartInSteps(s, cutoff, ids);
    Recovers(s, cutoff, j);
    ResumesOnlyRegister(s3, ids);
    ServesWhatItResumed(s4, j);
    StrandedThen(s3, s4, s.jobs[j], j);
  }

  lemma StrandedThen(s3: System, s4: System, job: Job, j: JobId)
    requires s3.registry == map[] && s4.jobs == s3.jobs && forall k :: k in s4.registry ==> k in s3.registry || Resumable(s3, k)
    requires j in s3.jobs ==> s3.jobs[j] == Recover(Crash(job))
    requires job.status == JobRunning ==> j in s3.jobs
    ensures Stranded(s4, j) <==> job.status == JobRunning && AllTerminal(job)
  {
    InterruptedIsNotTerminal(job);
  }

  lemma OneCollectorStarts() returns (steps: seq<Step>, job: Job)
    ensures Exec(Init(1), steps) == Solo(1, job, Dispatching([Started], 0))
    ensures job.status == JobRunning && job.runs == [Run("crtsh", Running, 1, 0, None, 0, 0, 0)] && Newer(job, 2)
    ensures forall i :: 0 <= i < |job.events| ==> !job.events[i].kind.JobFinished?
  {
    steps := ClaimsOneJob(1, ["crtsh"]);
    job := ClaimJob(NewJob(["crtsh"], 0), 0);
    var stage := Loading;
    assert PendingRuns(job) == {0} by { assert job.runs[0].status.Pending(); }
    steps, job, stage := Then(1, steps, job, stage, Load);
    steps, job, stage := Then(1, steps, job, stage, SeedSucceeds);
    assert stage.progress == [Waiting];
    steps, job, stage := Then(1, steps, job, stage, Start(0, 1));
    assert stage.progress == [Started];
  }

  /** A collector that succeeds without findings, up to the point where only `_finalize_job` is left. */
  lemma OneCollectorRuns() returns (steps: seq<Step>, job: Job)
    ensures Exec(Init(1), steps) == Solo(1, job, Dispatching([Over], 1))
    ensures job.status == JobRunning && job.runs == [Run("crtsh", Done, 1, 0, None, 0, 0, 0)]
    ensures forall i :: 0 <= i < |job.events| ==> !job.events[i].kind.JobFinished?
  {
    steps, job := OneCollectorStarts();
    var stage := Dispatching([Started], 0);
    steps, job, stage := Then(1, steps, job, stage, Check(0));
    assert stage.progress == [Body];
    steps, job := OneCollectorSucceeds(steps, job);
  }

  lemma OneCollectorSucceeds(before: seq<Step>, start: Job) returns (steps: seq<Step>, job: Job)
    requires Exec(Init(1), before) == Solo(1, start, Dispatching([Body], 0))
    requires start.status == JobRunning && start.runs == [Run("crtsh", Running, 1, 0, None, 0, 0, 0)] && Newer(start, 2)
    requires forall i :: 0 <= i < |start.events| ==> !start.events[i].kind.JobFinished?
    ensures Exec(Init(1), steps) == Solo(1, job, Dispatching([Over], 1))
    ensures job.status == JobRunning && job.runs == [Run("crtsh", Done, 1, 0, None, 0, 0, 0)]
    ensures forall i :: 0 <= i < |job.events| ==> !job.events[i].kind.JobFinished?
  {
    steps, job := before, start;
    var stage := Dispatching([Body], 0);
    steps, job, stage := Then(1, steps, job, stage, Return(0, []));
    assert stage.progress == [Returned([])];
    steps, job, stage := Then(1, steps, job, stage, Persist(0));
    assert stage.progress == [Persisted(0)];
    steps, job, stage := Then(1, steps, job, stage, Finish(0, 2));
    assert stage.progress == [Over];
  }

  /** It happens: a crash after the last collector recorded its result and before the job was finalized. */
  lemma CrashBeforeFinalizeStrands() returns (steps: seq<Step>)
    ensures var s := Exec(Init(1), steps); s.phase == Up && Stranded(s, "j") && !Has(s.jobs["j"], Failed)
  {
    var job;
    steps, job := OneCollectorRuns();
    var s1 := Next(Solo(1, job, Dispatching([Over], 1)), Kill);
    ExecAppend(Init(1), steps, Kill);
    steps := steps + [Kill];
    assert s1.jobs["j"].runs == job.runs;
    RestartsIdle(steps, s1);
    steps := steps + [RecoverRows, Serve];
  }

  lemma RestartsIdle(steps: seq<Step>, s: System)
    requires Exec(Init(1), steps) == s && s.phase == Down && s.jobs.Keys == {"j"} && s.registry == map[]
    requires s.jobs["j"].status == JobRunning && AllTerminal(s.jobs["j"]) && !Has(s.jobs["j"], Failed)
    ensures var s' := Exec(Init(1), steps + [RecoverRows, Serve]);
            s'.phase == Up && Stranded(s', "j") && !Has(s'.jobs["j"], Failed)
  {
    var s1 := Next(s, RecoverRows);
    RecoverLeaves(s.jobs["j"]);
    ExecAppend(Init(1), steps, RecoverRows);
    ExecAppend(Init(1), steps + [RecoverRows], Serve);
    assert steps + [RecoverRows] + [Serve] == steps + [RecoverRows, Serve];
  }

  predicate Spares(steps: seq<Step>, j: JobId) {
    forall i :: 0 <= i < |steps| ==> steps[i] != Delete(j)
  }

  lemma CrashLeaves(s: System, j: JobId)
    requires Reached(s) && j in s.jobs && AllTerminal(s.jobs[j])
    ensures Crash(s.jobs[j]) == s.jobs[j]
  {
    var job := s.jobs[j];
    forall i | 0 <= i < |job.runs| ensures Crash(job).runs[i] == job.runs[i] {
      QuietRuns(s, j, i);
      assert job.runs[i].status.Terminal();
    }
    assert Crash(job).runs == job.runs;
  }

  lemma NextKeepsStranded(s: System, step: Step, j: JobId)
    requires Reached(s) && Stranded(s, j) && step != Delete(j)
    requires forall name: string :: !RetryAccepts(s, j, name)
    ensures Stranded(Next(s, step), j) && Next(s, step).jobs[j] == s.jobs[j]
  {
    if step.Advance? && step.t in s.calls { CallOf(s, step.t); }
    if step.Leave? && step.t in s.calls { CallOf(s, step.t); }
    RowIsUsed(s, j);
    CrashLeaves(s, j);
    RecoverLeaves(s.jobs[j]);
  }

  lemma {:induction false} ExecKeepsStranded(s: System, steps: seq<Step>, j: JobId)
    requires Reached(s) && Stranded(s, j) && Spares(steps, j)
    requires forall name: string :: !RetryAccepts(s, j, name)
    ensures Stranded(Exec(s, steps), j) && Exec(s, steps).jobs[j] == s.jobs[j]
    decreases |steps|
  {
    if steps != [] {
      var s1 := Next(s, steps[0]);
      ReachedNext(s, steps[0]);
      NextKeepsStranded(s, steps[0], j);
      forall name: string ensures !RetryAccepts(s1, j, name) {
        assert !RetryAccepts(s, j, name);
      }
      assert forall i :: 0 <= i < |steps[1..]| ==> steps[1..][i] == steps[i + 1];
      ExecKeepsStranded(s1, steps[1..], j);
    }
  }

  /** A stranded job stays RUNNING whatever happens short of deleting it, cancellations, restarts and
      sweeps included, exactly when no failed run of it is alone under its name. */
  lemma StrandedForever(limit: nat, before: seq<Step>, j: JobId)
    requires var s := Exec(Init(limit), before); s.phase == Up && Stranded(s, j)
    ensures var s := Exec(Init(limit), before);
            (forall steps :: Spares(steps, j) ==> Stranded(Exec(s, steps), j) && Exec(s, steps).jobs[j] == s.jobs[j])
            <==> !(exists r: nat :: LoneFailure(s.jobs[j], r))
  {
    var s := Exec(Init(limit), before);
    assert Reached(s);
    AcceptsIffLone(s, j);
    if name: string :| RetryAccepts(s, j, name) {
      var steps := [Retry(j, name)];
      ExecAppend(s, [], Retry(j, name));
      assert [] + steps == steps;
      assert Spares(steps, j);
      assert Exec(s, steps) == Next(s, Retry(j, name));
      assert Exec(s, steps).jobs[j].status == JobQueued;
    } else {
      forall steps | Spares(steps, j)
        ensures Stranded(Exec(s, steps), j) && Exec(s, steps).jobs[j] == s.jobs[j]
      {
        ExecKeepsStranded(s, steps, j);
      }
    }
  }
}
