/** The job runner as an object over its tables and its map of cancellation events. Each method makes
    exactly one step, or one run of steps, of the step system. */
module Runner {
  import opened Wrappers
  import opened Rows
  import opened Dispatch
  import opened System
  import opened Lifecycle
  import opened Retrying
  import opened Undisturbed
  import Network
  import Outbound

  datatype RetryReply = RetryQueued | JobNotFound | JobActive | NoSuchCollector | NotFailed | SeveralFound

  datatype CreateReply = Created | NotAttested | InvalidTarget | NotAssessable | UnknownSource

  class JobRunner {
    const limit: nat
    var phase: Phase
    var jobs: map<JobId, Job>
    var calls: map<nat, Call>
    var cancellationEvents: map<JobId, nat>
    var nextCall: nat
    var used: set<JobId>
    ghost var history: seq<Step>

    function State(): System
      reads this
    {
      System(limit, phase, jobs, calls, cancellationEvents, nextCall, used)
    }

    /** The object is always in the state its history of steps leads to, so every theorem about runs of
        the step system is a theorem about it. */
    ghost predicate Valid()
      reads this
    {
      State() == Exec(Init(limit), history)
    }

    constructor (limit: nat)
      ensures Valid() && history == [] && this.limit == limit
    {
      this.limit := limit;
      phase, jobs, calls, cancellationEvents, nextCall, used := Down, map[], map[], map[], 0, {};
      history := [];
    }

    // ---------- startup ----------

    method RecoverOnStartup()
      requires Valid() && phase == Down
      modifies `phase, `jobs, `history
      ensures Valid() && history == old(history) + [RecoverRows] && phase == Recovered
      ensures jobs.Keys == old(jobs).Keys && forall j :: j in jobs ==> jobs[j] == Recover(old(jobs)[j])
      ensures forall j :: j in jobs ==> |jobs[j].runs| == |old(jobs)[j].runs| && jobs[j] == old(jobs)[j].(runs := jobs[j].runs)
      ensures forall j, i :: j in jobs && 0 <= i < |jobs[j].runs| ==>
                var was := old(jobs)[j].runs[i];
                jobs[j].runs[i] == if was.status == Running then was.(status := Interrupted, interruptions := was.interruptions + 1) else was
    {
      jobs := map j | j in jobs :: Recover(jobs[j]);
      phase := Recovered;
      ExecAppend(Init(limit), history, RecoverRows);
      history := history + [RecoverRows];
    }

    method Sweep(cutoff: int)
      requires Valid() && phase != Down
      modifies `jobs, `history
      ensures Valid() && history == old(history) + [Step.Sweep(cutoff)]
      ensures forall j :: j in jobs <==>
                j in old(jobs) && !(old(jobs)[j].status in {Completed, CompletedWithWarnings, JobFailed, Canceled}
                                    && old(jobs)[j].finishedAt.Some? && old(jobs)[j].finishedAt.value < cutoff)
      ensures forall j :: j in jobs ==> jobs[j] == old(jobs)[j]
    {
      jobs := map j | j in jobs && !Expired(jobs[j], cutoff) :: jobs[j];
      ExecAppend(Init(limit), history, Step.Sweep(cutoff));
      history := history + [Step.Sweep(cutoff)];
    }

    method FindResumableJobIds() returns (ids: seq<JobId>)
      ensures forall j :: j in ids <==> Resumable(State(), j)
      ensures forall j :: j in ids <==>
                j in jobs && jobs[j].status == JobRunning
                && exists i :: 0 <= i < |jobs[j].runs| && (jobs[j].runs[i].status == Queued || jobs[j].runs[i].status == Interrupted)
      ensures forall i, k :: 0 <= i < k < |ids| ==> ids[i] != ids[k]
    {
      ids := [];
      var rest := jobs.Keys;
      while rest != {}
        invariant rest <= jobs.Keys
        invariant forall j :: j in ids <==> Resumable(State(), j) && j !in rest
        invariant forall i, k :: 0 <= i < k < |ids| ==> ids[i] != ids[k]
        decreases rest
      {
        var j :| j in rest;
        if jobs[j].status == JobRunning && HasPending(jobs[j]) {
          ids := ids + [j];
        }
        rest := rest - {j};
      }
    }

    /** `run_job` creates its event and puts it in the map before it does anything else. */
    method RegisterCall(j: JobId)
      modifies `calls, `cancellationEvents, `nextCall
      ensures State() == Register(old(State()), j)
    {
      calls := calls[nextCall := Call(j, false, Loading)];
      cancellationEvents := cancellationEvents[j := nextCall];
      nextCall := nextCall + 1;
    }

    method ResumeJob(j: JobId)
      requires Valid() && phase == Recovered && Resumable(State(), j) && !Active(State(), j)
      modifies this
      ensures Valid() && history == old(history) + [Resume(j)]
      ensures phase == old(phase) && jobs == old(jobs)
      ensures cancellationEvents.Keys == old(cancellationEvents).Keys + {j}
    {
      RegisterCall(j);
      ExecAppend(Init(limit), history, Resume(j));
      history := history + [Resume(j)];
    }

    method ResumeAll(ids: seq<JobId>)
      requires Valid() && phase == Recovered && cancellationEvents == map[]
      requires forall i :: 0 <= i < |ids| ==> Resumable(State(), ids[i])
      requires forall i, k :: 0 <= i < k < |ids| ==> ids[i] != ids[k]
      modifies this
      ensures Valid() && phase == Recovered && jobs == old(jobs)
      ensures forall j :: j in cancellationEvents <==> j in ids
      ensures history == old(history) + Resumes(ids)
    {
      for i := 0 to |ids|
        invariant Valid() && phase == Recovered && jobs == old(jobs)
        invariant forall j :: j in cancellationEvents <==> j in ids[..i]
        invariant history == old(history) + Resumes(ids[..i])
      {
        assert ids[i] !in ids[..i];
        assert Resumes(ids[..i + 1]) == Resumes(ids[..i]) + [Resume(ids[i])];
        ResumeJob(ids[i]);
      }
      assert ids[..|ids|] == ids;
    }

    /** A job is driven exactly when it is resumable. */
    ghost predicate DrivesTheResumable()
      reads this
    {
      forall j :: Active(State(), j) <==> Resumable(State(), j)
    }

    method ResumeResumable() returns (resumed: seq<JobId>)
      requires Valid() && phase == Recovered && cancellationEvents == map[]
      modifies this
      ensures Valid() && phase == Recovered && jobs == old(jobs) && DrivesTheResumable()
      ensures history == old(history) + Resumes(resumed)
    {
      resumed := FindResumableJobIds();
      ResumeAll(resumed);
    }

    method BeginServing()
      requires Valid() && phase == Recovered && DrivesTheResumable()
      modifies `phase, `history
      ensures Valid() && phase == Up && history == old(history) + [Serve] && DrivesTheResumable()
      ensures forall j :: j in jobs && jobs[j].status == JobRunning && !Active(State(), j) ==> AllTerminal(jobs[j])
    {
      ghost var before := State();
      ExecAppend(Init(limit), history, Serve);
      phase := Up;
      assert State() == before.(phase := Up) == Next(before, Serve);
      history := history + [Serve];
      forall j ensures Active(State(), j) <==> Resumable(State(), j) {
        assert Active(before, j) <==> Resumable(before, j);
      }
      IdleHaveNothingLeft(limit, history);
    }

    /** The lifespan order: recover, sweep, resume every resumable job, then serve. Afterwards a job is
        driven exactly when it is resumable, and any other RUNNING job has nothing left to run. */
    method Startup(cutoff: int) returns (resumed: seq<JobId>)
      requires Valid() && phase == Down
      modifies this
      ensures Valid() && phase == Up
      ensures history == old(history) + [RecoverRows, Step.Sweep(cutoff)] + Resumes(resumed) + [Serve]
      ensures DrivesTheResumable()
      ensures forall j :: j in jobs && jobs[j].status == JobRunning && !Active(State(), j) ==> AllTerminal(jobs[j])
    {
      NothingInFlightWhileDown(limit, history);
      RecoverOnStartup();
      Sweep(cutoff);
      resumed := ResumeResumable();
      BeginServing();
    }

    // ---------- requests ----------

    /** A job is created exactly when the request is attested, its target is valid and assessable, and every
        selected source is registered; every other request changes nothing. */
    method CreateJob(j: JobId, sources: seq<string>, registered: set<string>, attested: bool,
                     validTarget: bool, assessable: bool, now: int) returns (reply: CreateReply)
      requires Valid() && phase == Up && j !in used && |sources| > 0
      modifies this
      ensures Valid()
      ensures reply == Created <==> attested && validTarget && assessable && forall name :: name in sources ==> name in registered
      ensures reply == Created ==> history == old(history) + [Create(j, sources, now)] && j in jobs && jobs == old(jobs)[j := jobs[j]]
      ensures reply == Created ==>
                && jobs[j] == Job(JobQueued, now, None, None, jobs[j].runs, [], []) && |jobs[j].runs| == |sources|
                && forall i :: 0 <= i < |sources| ==> jobs[j].runs[i] == Run(sources[i], Queued, 0, 0, None, 0, 0, 0)
      ensures reply != Created ==> State() == old(State()) && history == old(history)
    {
      if !attested { return NotAttested; }
      if !validTarget { return InvalidTarget; }
      if !assessable { return NotAssessable; }
      if exists name :: name in sources && name !in registered { return UnknownSource; }
      var runs := [];
      for i := 0 to |sources|
        invariant |runs| == i && forall k :: 0 <= k < i ==> runs[k] == NewRun(sources[k])
      {
        runs := runs + [NewRun(sources[i])];
      }
      assert runs == NewJob(sources, now).runs;
      jobs := jobs[j := Job(JobQueued, now, None, None, runs, [], [])];
      used := used + {j};
      ExecAppend(Init(limit), history, Create(j, sources, now));
      history := history + [Create(j, sources, now)];
      reply := Created;
    }

    method OldestQueued() returns (oldest: Option<JobId>)
      ensures oldest.None? ==> forall j :: j in jobs ==> jobs[j].status != JobQueued
      ensures oldest.Some? ==> oldest.value in jobs && jobs[oldest.value].status == JobQueued
      ensures oldest.Some? ==> forall j :: j in jobs && jobs[j].status == JobQueued ==>
                                 jobs[oldest.value].createdAt <= jobs[j].createdAt
    {
      oldest := None;
      var rest := jobs.Keys;
      while rest != {}
        invariant rest <= jobs.Keys
        invariant oldest.None? ==> forall j :: j in jobs && j !in rest ==> jobs[j].status != JobQueued
        invariant oldest.Some? ==> oldest.value in jobs && jobs[oldest.value].status == JobQueued
        invariant oldest.Some? ==> forall j :: j in jobs && j !in rest && jobs[j].status == JobQueued ==>
                                     jobs[oldest.value].createdAt <= jobs[j].createdAt
        decreases rest
      {
        var j :| j in rest;
        if jobs[j].status == JobQueued && (oldest.None? || jobs[j].createdAt < jobs[oldest.value].createdAt) {
          oldest := Some(j);
        }
        rest := rest - {j};
      }
    }

    /** Claims the oldest QUEUED job, and answers None only when there is none. */
    method ClaimNextQueuedJob(now: int) returns (claimed: Option<JobId>)
      requires Valid() && phase == Up
      modifies this
      ensures Valid()
      ensures claimed.None? ==> State() == old(State()) && history == old(history) && forall j :: j in jobs ==> jobs[j].status != JobQueued
      ensures claimed.Some? ==>
                && claimed.value in old(jobs) && old(jobs)[claimed.value].status == JobQueued
                && (forall j :: j in old(jobs) && old(jobs)[j].status == JobQueued ==>
                      old(jobs)[claimed.value].createdAt <= old(jobs)[j].createdAt)
                && history == old(history) + [Claim(claimed.value, now)]
                && jobs == old(jobs)[claimed.value := old(jobs)[claimed.value].(status := JobRunning, startedAt := Some(now))]
                && Active(State(), claimed.value)
    {
      claimed := OldestQueued();
      if claimed.Some? {
        ExecAppend(Init(limit), history, Claim(claimed.value, now));
        jobs := jobs[claimed.value := ClaimJob(jobs[claimed.value], now)];
        RegisterCall(claimed.value);
        history := history + [Claim(claimed.value, now)];
      }
    }

    /** Accepted exactly for a QUEUED job and for a RUNNING job that a call is driving. */
    method RequestCancellation(j: JobId, now: int, cutoff: int) returns (accepted: bool)
      requires Valid() && phase == Up
      modifies this
      ensures Valid()
      ensures accepted <==> j in old(jobs) && (old(jobs)[j].status == JobQueued
                            || (old(jobs)[j].status == JobRunning && j in old(cancellationEvents)))
      ensures !accepted ==> State() == old(State()) && history == old(history)
      ensures accepted && old(jobs)[j].status == JobRunning ==>
                && history == old(history) + [Cancel(j, now, NextId(old(jobs)[j]))]
                && jobs == old(jobs) && j in cancellationEvents
                && cancellationEvents[j] in calls && calls[cancellationEvents[j]].cancelled
      ensures accepted && old(jobs)[j].status == JobQueued ==>
                && history == old(history) + [Cancel(j, now, NextId(old(jobs)[j])), Step.Sweep(cutoff)]
                && (j in jobs ==> jobs[j] == old(jobs)[j].(status := Canceled, finishedAt := Some(now),
                                   events := old(jobs)[j].events + [Event(NextId(old(jobs)[j]), None, JobFinished(Canceled))]))
    {
      if j !in jobs { return false; }
      var job := jobs[j];
      ghost var step := Cancel(j, now, NextId(job));
      IdsAscend(limit, history, j);
      ExecAppend(Init(limit), history, step);
      if job.status == JobQueued {
        jobs := jobs[j := CloseJob(job, Canceled, now, NextId(job))];
        history := history + [step];
        Sweep(cutoff);
        return true;
      }
      if job.status != JobRunning { return false; }
      if j !in cancellationEvents { return false; }
      var t := cancellationEvents[j];
      EventIsACall(limit, history, j);
      calls := calls[t := calls[t].(cancelled := true)];
      history := history + [step];
      return true;
    }

    /** Deletes a job that no call drives, with all its rows; an unknown one is reported. */
    method DeleteJob(j: JobId) returns (deleted: bool)
      requires Valid() && phase == Up && j !in cancellationEvents
      modifies `jobs, `history
      ensures Valid() && deleted == (j in old(jobs)) && jobs == old(jobs) - {j}
      ensures history == if deleted then old(history) + [Delete(j)] else old(history)
    {
      if j !in jobs { return false; }
      ExecAppend(Init(limit), history, Delete(j));
      jobs := jobs - {j};
      history := history + [Delete(j)];
      deleted := true;
    }

    /** The run at `r` is the only one of its name. */
    static predicate OnlyRunOf(job: Job, r: nat, name: string) {
      r < |job.runs| && forall q :: 0 <= q < |job.runs| ==> (job.runs[q].collector == name <==> q == r)
    }

    /** Looks a run up by collector name, as the retry request does. */
    method FindRun(job: Job, name: string) returns (found: Option<nat>, several: bool)
      ensures several ==> |Named(job, name)| > 1 && forall r: nat :: Named(job, name) != {r} && !OnlyRunOf(job, r, name)
      ensures !several && found.None? ==> Named(job, name) == {} && forall q :: 0 <= q < |job.runs| ==> job.runs[q].collector != name
      ensures !several && found.Some? ==> Named(job, name) == {found.value} && OnlyRunOf(job, found.value, name)
    {
      found, several := None, false;
      for i := 0 to |job.runs|
        invariant found.None? ==> forall q :: 0 <= q < i ==> job.runs[q].collector != name
        invariant found.Some? ==> 0 <= found.value < i && job.runs[found.value].collector == name
        invariant found.Some? ==> forall q :: 0 <= q < i && job.runs[q].collector == name ==> q == found.value
      {
        if job.runs[i].collector == name {
          if found.Some? {
            TwoFound(job, name, found.value, i);
            return found, true;
          }
          found := Some(i);
        }
      }
    }

    /** Requeues the run and the job exactly when the retry is acceptable, and changes nothing otherwise. */
    method RetryCollector(j: JobId, name: string) returns (reply: RetryReply)
      requires Valid() && phase == Up
      modifies this
      ensures Valid()
      ensures reply == RetryQueued <==> RetryAccepts(old(State()), j, name)
      ensures reply == RetryQueued ==> history == old(history) + [Retry(j, name)] && j in old(jobs) && j !in cancellationEvents
      ensures reply == RetryQueued ==>
                exists r: nat :: r < |old(jobs)[j].runs| && OnlyRunOf(old(jobs)[j], r, name) && old(jobs)[j].runs[r].status == Failed
                  && jobs == old(jobs)[j := old(jobs)[j].(status := JobQueued, startedAt := None, finishedAt := None,
                       runs := old(jobs)[j].runs[r := old(jobs)[j].runs[r].(status := Queued, errorCode := None)])]
      ensures reply == JobNotFound <==> j !in old(jobs)
      ensures reply == JobActive <==> j in old(jobs) && j in cancellationEvents
      ensures reply == NoSuchCollector <==>
                j in old(jobs) && j !in cancellationEvents
                && forall r :: 0 <= r < |old(jobs)[j].runs| ==> old(jobs)[j].runs[r].collector != name
      ensures reply == NotFailed <==>
                j in old(jobs) && j !in cancellationEvents
                && exists r: nat :: r < |old(jobs)[j].runs| && OnlyRunOf(old(jobs)[j], r, name) && old(jobs)[j].runs[r].status != Failed
      ensures reply != RetryQueued ==> State() == old(State()) && history == old(history)
      ensures reply == SeveralFound ==> j in jobs && |Named(jobs[j], name)| > 1
    {
      if j !in jobs { return JobNotFound; }
      if j in cancellationEvents { return JobActive; }
      var job := jobs[j];
      var found, several := FindRun(job, name);
      if several { return SeveralFound; }
      if found.None? { return NoSuchCollector; }
      var r := found.value;
      assert forall q: nat :: Named(job, name) == {q} ==> q in {r};
      if job.runs[r].status != Failed { return NotFailed; }
      assert TheRun(job, name) == r;
      ExecAppend(Init(limit), history, Retry(j, name));
      jobs := jobs[j := RequeueRun(job, r)];
      history := history + [Retry(j, name)];
      reply := RetryQueued;
    }

    // ---------- one dispatch ----------

    ghost predicate Driving(t: nat)
      reads this
    {
      Valid() && phase == Up && t in calls && calls[t].job in jobs
    }

    /** One transaction, or one stretch of code between two awaits, of call `t`. */
    method Advance(t: nat, move: Dispatch.Move)
      requires Driving(t)
      requires MoveJob(limit, calls[t].cancelled, calls[t].stage, jobs[calls[t].job], move).Some?
      modifies this
      ensures Driving(t) && history == old(history) + [Step.Advance(t, move)]
      ensures var c := old(calls)[t];
              var (job', stage') := MoveJob(limit, c.cancelled, c.stage, old(jobs)[c.job], move).value;
              State() == Put(old(State()), t, job', stage')
    {
      ExecAppend(Init(limit), history, Step.Advance(t, move));
      var c := calls[t];
      var (job', stage') := MoveJob(limit, c.cancelled, c.stage, jobs[c.job], move).value;
      jobs := jobs[c.job := job'];
      calls := calls[t := c.(stage := stage')];
      history := history + [Step.Advance(t, move)];
    }

    /** Marks every pending run FAILED, one after the other, and closes the job in the same transaction. */
    method FailJobBeforeDispatch(t: nat, now: int)
      requires Driving(t) && calls[t].stage.Seeding?
      modifies this
      ensures Valid()
      ensures var j := old(calls)[t].job; var was := old(jobs)[j];
              && j in jobs && jobs == old(jobs)[j := jobs[j]] && jobs[j].status == JobFailed && jobs[j].finishedAt == Some(now)
              && |jobs[j].runs| == |was.runs|
              && forall i :: 0 <= i < |was.runs| ==>
                   jobs[j].runs[i] == if i in old(calls)[t].stage.pending then was.runs[i].(status := Failed, errorCode := Some("deny_list_seed_failed")) else was.runs[i]
      ensures history == old(history) + [Step.Advance(t, SeedFails(now, NextId(old(jobs)[old(calls)[t].job])))]
      ensures State() == Put(old(State()), t,
                FailBeforeDispatch(old(jobs)[old(calls)[t].job], old(calls)[t].stage.pending, now, NextId(old(jobs)[old(calls)[t].job])), Finished)
    {
      var j := calls[t].job;
      var job := jobs[j];
      IdsAscend(limit, history, j);
      PendingIsLoaded(limit, history, t);
      SeedFailureIsNext(State(), t, now, NextId(job));
      ExecAppend(Init(limit), history, Step.Advance(t, SeedFails(now, NextId(job))));
      var runs := FailEach(job, calls[t].stage.pending);
      jobs := jobs[j := CloseJob(job.(runs := runs), JobFailed, now, NextId(job))];
      calls := calls[t := calls[t].(stage := Finished)];
      history := history + [Step.Advance(t, SeedFails(now, NextId(job)))];
    }

    method FailEach(job: Job, pending: set<nat>) returns (runs: seq<Run>)
      requires forall r :: r in pending ==> r < |job.runs|
      ensures runs == FailRuns(job.runs, pending)
    {
      runs := job.runs;
      var rest := pending;
      while rest != {}
        invariant rest <= pending && |runs| == |job.runs|
        invariant forall i :: 0 <= i < |runs| ==>
                    runs[i] == if i in pending && i !in rest then FailedBeforeDispatch(job.runs[i]) else job.runs[i]
        decreases rest
      {
        var r :| r in rest;
        runs := runs[r := FailedBeforeDispatch(runs[r])];
        rest := rest - {r};
      }
    }

    method StartCollector(t: nat, r: nat)
      requires Driving(t) && CanStart(limit, calls[t].stage, jobs[calls[t].job], r)
      modifies this
      ensures Driving(t)
      ensures var was := old(jobs)[old(calls)[t].job]; var stage := old(calls)[t].stage;
              State() == Put(old(State()), t, StartRun(was, r, NextId(was)), At(stage, r, Started, if Deferred(was.runs[r]) then 0 else -1))
    {
      IdsAscend(limit, history, calls[t].job);
      Advance(t, Start(r, NextId(jobs[calls[t].job])));
    }

    /** The three checks made before the collector's own code: is it registered, does it support the
        target, has the job been cancelled. */
    method PassChecks(t: nat, r: nat, behaviour: Behaviour) returns (passed: bool)
      requires Driving(t) && calls[t].stage.Dispatching?
      requires r < |calls[t].stage.progress| == |jobs[calls[t].job].runs| && calls[t].stage.progress[r] == Started
      modifies this
      ensures Driving(t) && State() == Put(old(State()), t, old(jobs)[old(calls)[t].job], calls[t].stage)
      ensures passed <==> behaviour.known && behaviour.supported && !old(calls)[t].cancelled
      ensures calls[t].stage.Dispatching? && r < |calls[t].stage.progress|
      ensures calls[t].stage == At(old(calls)[t].stage, r, calls[t].stage.progress[r], 0)
      ensures passed ==> calls[t].stage.progress[r] == Body
      ensures !passed ==> calls[t].stage.progress[r] == Closing(Landing(old(calls)[t].cancelled, behaviour), CodeOf(old(calls)[t].cancelled, behaviour))
    {
      if !behaviour.known {
        Advance(t, Reject(r, false));
        return false;
      }
      if !behaviour.supported {
        Advance(t, Reject(r, true));
        return false;
      }
      passed := !calls[t].cancelled;
      Advance(t, Check(r));
    }

    /** The collector's own code, and the commit of what it found. */
    method RunBody(t: nat, r: nat, outcome: Outcome)
      requires Driving(t) && calls[t].stage.Dispatching? && Behaviour(true, true, outcome).Typed()
      requires r < |calls[t].stage.progress| == |jobs[calls[t].job].runs| && calls[t].stage.progress[r] == Body
      modifies this
      ensures Driving(t)
      ensures var was := old(jobs)[old(calls)[t].job]; var stage := old(calls)[t].stage;
              State() == match outcome
                case Findings(batch) => Put(old(State()), t, PersistFindings(was, r, batch), At(stage, r, Persisted(|batch|), 0))
                case Error(status, code) => Put(old(State()), t, was, At(stage, r, Closing(status, Some(code)), 0))
      ensures outcome.Findings? ==>
                var was := old(jobs)[old(calls)[t].job]; var findings := jobs[old(calls)[t].job].findings;
                && |findings| == |was.findings| + |outcome.batch| && was.findings <= findings
                && forall i :: 0 <= i < |outcome.batch| ==> findings[|was.findings| + i] == Finding(was.runs[r].collector, outcome.batch[i])
    {
      ghost var was := jobs[calls[t].job];
      match outcome
      case Error(status, code) =>
        Advance(t, Raise(r, status, code));
      case Findings(batch) =>
        ghost var stage := calls[t].stage;
        BatchIsPersisted(was, r, batch);
        Advance(t, Return(r, batch));
        Advance(t, Persist(r));
        assert calls[t].stage.progress == stage.progress[r := Persisted(|batch|)];
        assert jobs == old(jobs)[calls[t].job := jobs[calls[t].job]];
        assert calls == old(calls)[t := old(calls)[t].(stage := At(stage, r, Persisted(|batch|), 0))];
    }

    method FinishCollector(t: nat, r: nat)
      requires Driving(t) && calls[t].stage.Dispatching?
      requires r < |calls[t].stage.progress| == |jobs[calls[t].job].runs|
      requires calls[t].stage.progress[r].Persisted? || calls[t].stage.progress[r].Closing?
      modifies this
      ensures Driving(t)
      ensures var was := old(jobs)[old(calls)[t].job]; var stage := old(calls)[t].stage; var p := stage.progress[r];
              State() == Put(old(State()), t,
                if p.Persisted? then FinishRun(was, r, Done, None, p.count, NextId(was))
                else FinishRun(was, r, p.status, p.code, 0, NextId(was)),
                At(stage, r, Over, if Deferred(was.runs[r]) then 0 else 1))
    {
      IdsAscend(limit, history, calls[t].job);
      Advance(t, Finish(r, NextId(jobs[calls[t].job])));
    }

    /** One collector from start to recorded result, when nothing else comes between. */
    method RunOneCollector(t: nat, r: nat, behaviour: Behaviour)
      requires Driving(t) && behaviour.Typed()
      requires CanStart(limit, calls[t].stage, jobs[calls[t].job], r)
      modifies this
      ensures Driving(t) && calls[t].job == old(calls)[t].job
      ensures State() == Put(old(State()), t, jobs[calls[t].job], At(old(calls)[t].stage, r, Over, 0))
      ensures RanOnce(old(jobs)[old(calls)[t].job], jobs[old(calls)[t].job], r, old(calls)[t].cancelled, behaviour)
      ensures RanAsTold(old(jobs)[old(calls)[t].job].runs[r], jobs[old(calls)[t].job].runs[r], old(calls)[t].cancelled, behaviour)
    {
      ghost var before, was, stage, cancelled := State(), jobs[calls[t].job], calls[t].stage, calls[t].cancelled;
      StartAndAttempt(t, r, behaviour);
      ghost var attempted, stage2 := jobs[calls[t].job], calls[t].stage;
      FinishCollector(t, r);
      PutTwice(before, t, attempted, stage2, jobs[calls[t].job], calls[t].stage);
      AtTwice(stage, r, stage2.progress[r], if Deferred(was.runs[r]) then 0 else -1, Over, if Deferred(was.runs[r]) then 0 else 1);
      RunIsRecorded(was, r, NextId(was), cancelled, behaviour, stage2.progress[r], NextId(attempted));
      RanIsTold(was.runs[r], jobs[calls[t].job].runs[r], cancelled, behaviour);
    }

    method StartAndAttempt(t: nat, r: nat, behaviour: Behaviour)
      requires Driving(t) && behaviour.Typed()
      requires CanStart(limit, calls[t].stage, jobs[calls[t].job], r)
      modifies this
      ensures Driving(t) && calls[t].stage.Dispatching? && r < |calls[t].stage.progress|
      ensures var c, was := old(calls)[t], old(jobs)[old(calls)[t].job]; var p := calls[t].stage.progress[r];
              && State() == Put(old(State()), t, Attempted(StartRun(was, r, NextId(was)), r, c.cancelled, behaviour), calls[t].stage)
              && calls[t].stage == At(c.stage, r, p, if Deferred(was.runs[r]) then 0 else -1)
              && Lands(p, c.cancelled, behaviour)
    {
      ghost var before, was, stage := State(), jobs[calls[t].job], calls[t].stage;
      StartCollector(t, r);
      ghost var started, stage1 := jobs[calls[t].job], calls[t].stage;
      AttemptCollector(t, r, behaviour);
      PutTwice(before, t, started, stage1, jobs[calls[t].job], calls[t].stage);
      AtTwice(stage, r, Started, if Deferred(was.runs[r]) then 0 else -1, calls[t].stage.progress[r], 0);
    }

    /** What happens between the two transactions that every attempt makes. */
    method AttemptCollector(t: nat, r: nat, behaviour: Behaviour)
      requires Driving(t) && calls[t].stage.Dispatching? && behaviour.Typed()
      requires r < |calls[t].stage.progress| == |jobs[calls[t].job].runs| && calls[t].stage.progress[r] == Started
      modifies this
      ensures Driving(t)
      ensures var c := old(calls)[t];
              && State() == Put(old(State()), t, Attempted(old(jobs)[c.job], r, c.cancelled, behaviour), calls[t].stage)
              && calls[t].stage.Dispatching? && r < |calls[t].stage.progress|
              && calls[t].stage == At(c.stage, r, calls[t].stage.progress[r], 0)
              && Lands(calls[t].stage.progress[r], c.cancelled, behaviour)
    {
      ghost var before, stage := State(), calls[t].stage;
      var passed := PassChecks(t, r, behaviour);
      if passed {
        ghost var job, checked := jobs[calls[t].job], calls[t].stage;
        RunBody(t, r, behaviour.outcome);
        PutTwice(before, t, job, checked, jobs[calls[t].job], calls[t].stage);
        AtTwice(stage, r, Body, 0, calls[t].stage.progress[r], 0);
      }
    }

    /** Part of the way through a dispatch: the runs in `todo` have yet to be started, the other pending
        ones are over, in `order`, and rows, findings and log are what the collectors so far made of them. */
    ghost predicate Midway(d: Course, todo: set<nat>, order: seq<nat>)
      reads this
    {
      && Driving(d.call) && calls[d.call] == Call(d.job, d.cancelled, Dispatching(ProgressAt(d.was, d.pending, todo), limit))
      && cancellationEvents == d.events && OthersKept(d.others, jobs, d.job)
      && |d.behaviours| == |d.was.runs| && Accounted(d.was, jobs[d.job], d.pending, todo, order, d.cancelled, d.behaviours)
    }

    /** Runs the chosen collectors one after the other. */
    method RunEach(ghost d: Course, t: nat, chosen: set<nat>, behaviours: seq<Behaviour>, ghost todo: set<nat>, ghost before: seq<nat>)
      returns (ghost order: seq<nat>)
      requires Midway(d, todo, before) && d.call == t && d.behaviours == behaviours && d.Sane()
      requires limit > 0 && chosen <= todo <= d.pending
      requires (forall r :: r in chosen ==> !Deferred(d.was.runs[r])) || (forall r :: r in todo ==> Deferred(d.was.runs[r]))
      modifies this
      ensures Midway(d, todo - chosen, order)
    {
      var rest := chosen;
      order := before;
      ghost var left := todo;
      while rest != {}
        invariant rest <= chosen && rest <= left <= todo && left - rest == todo - chosen
        invariant Midway(d, left, order)
        decreases rest
      {
        var r :| r in rest;
        RunNext(d, t, r, behaviours, left, order);
        order, left, rest := order + [r], left - {r}, rest - {r};
      }
      assert left == todo - chosen;
    }

    method RunNext(ghost d: Course, t: nat, r: nat, behaviours: seq<Behaviour>, ghost todo: set<nat>, ghost order: seq<nat>)
      requires Midway(d, todo, order) && d.call == t && d.behaviours == behaviours && d.Sane()
      requires limit > 0 && r in todo && todo <= d.pending
      requires !Deferred(d.was.runs[r]) || forall q :: q in todo ==> Deferred(d.was.runs[q])
      modifies this
      ensures Midway(d, todo - {r}, order + [r])
    {
      ghost var job := jobs[d.job];
      RunOneCollector(t, r, behaviours[r]);
      AccountsForOneMore(d.was, job, jobs[d.job], d.pending, todo, order, d.cancelled, d.behaviours, r);
    }

    /** A whole `run_job`, when nothing comes between its transactions: load, seed the deny-list of a gateway of
        its own, the immediate collectors, the deferred ones, finalize, sweep, and the event is gone from the
        map. Whether collectors are dispatched is up to the seeding alone. */
    method RunJob(t: nat, target: Outbound.Target, resolution: Outbound.Resolution, clock: real, behaviours: seq<Behaviour>, now: int, cutoff: int)
      returns (gateway: Outbound.OutboundGateway, ghost order: seq<nat>)
      requires Driving(t) && calls[t].stage == Loading && limit > 0
      requires |behaviours| == |jobs[calls[t].job].runs| && forall i :: 0 <= i < |behaviours| ==> behaviours[i].Typed()
      modifies this
      ensures Valid() && t !in calls && old(calls)[t].job !in cancellationEvents
      ensures fresh(gateway) && gateway.Valid()
      ensures SeededFor(target, resolution, clock, gateway.denyList.seeded, gateway.clock, gateway.denyList.Contents())
      ensures var c := old(calls)[t];
              c.job in jobs ==> Dispatched(old(jobs)[c.job], jobs[c.job], order, gateway.denyList.seeded, c.cancelled, behaviours, now)
      ensures forall k :: k in jobs && k != old(calls)[t].job ==> k in old(jobs) && jobs[k] == old(jobs)[k]
    {
      LoadJob(t);
      gateway := NewGateway(target, resolution, clock);
      order := AfterSeeding(t, gateway.denyList.seeded, behaviours, now);
      SweepAndLeave(t, cutoff);
    }

    method SweepAndLeave(t: nat, cutoff: int)
      requires Driving(t) && calls[t].stage == Finished
      modifies this
      ensures Valid() && t !in calls && old(calls)[t].job !in cancellationEvents
      ensures forall k :: k in jobs ==> k in old(jobs) && jobs[k] == old(jobs)[k]
    {
      Sweep(cutoff);
      LeaveCall(t);
    }

    method LoadJob(t: nat)
      requires Driving(t) && calls[t].stage == Loading
      modifies this
      ensures Driving(t) && jobs == old(jobs) && cancellationEvents == old(cancellationEvents)
      ensures jobs[calls[t].job].status == JobRunning
      ensures calls[t] == Call(old(calls)[t].job, old(calls)[t].cancelled, Seeding(PendingRuns(jobs[old(calls)[t].job])))
    {
      RunningWhileLoading(limit, history, t);
      Advance(t, Load);
    }

    /** A gateway of the job's own, with its deny-list seeded if that succeeds. */
    static method NewGateway(target: Outbound.Target, resolution: Outbound.Resolution, clock: real) returns (gateway: Outbound.OutboundGateway)
      ensures fresh(gateway) && fresh(gateway.denyList) && gateway.Valid()
      ensures SeededFor(target, resolution, clock, gateway.denyList.seeded, gateway.clock, gateway.denyList.Contents())
    {
      gateway := new Outbound.OutboundGateway(resolution.forbidden, clock);
      var seeded := gateway.SeedForTarget(target, resolution);
    }

    method AfterSeeding(t: nat, seeded: bool, behaviours: seq<Behaviour>, now: int) returns (ghost order: seq<nat>)
      requires Driving(t) && limit > 0 && jobs[calls[t].job].status == JobRunning
      requires calls[t].stage == Seeding(PendingRuns(jobs[calls[t].job]))
      requires |behaviours| == |jobs[calls[t].job].runs| && forall i :: 0 <= i < |behaviours| ==> behaviours[i].Typed()
      modifies this
      ensures Driving(t) && calls[t].job == old(calls)[t].job && calls[t].stage == Finished
      ensures cancellationEvents == old(cancellationEvents) && OthersKept(old(jobs), jobs, old(calls)[t].job)
      ensures var c := old(calls)[t];
              Dispatched(old(jobs)[c.job], jobs[c.job], order, seeded, c.cancelled, behaviours, now)
    {
      if seeded {
        order := DispatchCollectors(t, behaviours, now);
      } else {
        order := [];
        ghost var was := jobs[calls[t].job];
        ClosingMarks(was.(runs := FailRuns(was.runs, PendingRuns(was))), JobFailed, now, NextId(was));
        FailJobBeforeDispatch(t, now);
      }
    }

    /** From a seeded deny-list to the finalized job. */
    method DispatchCollectors(t: nat, behaviours: seq<Behaviour>, now: int) returns (ghost order: seq<nat>)
      requires Driving(t) && limit > 0 && jobs[calls[t].job].status == JobRunning
      requires calls[t].stage == Seeding(PendingRuns(jobs[calls[t].job]))
      requires |behaviours| == |jobs[calls[t].job].runs| && forall i :: 0 <= i < |behaviours| ==> behaviours[i].Typed()
      modifies this
      ensures Driving(t) && calls[t].job == old(calls)[t].job && calls[t].stage == Finished
      ensures cancellationEvents == old(cancellationEvents) && OthersKept(old(jobs), jobs, old(calls)[t].job)
      ensures var c := old(calls)[t];
              Dispatched(old(jobs)[c.job], jobs[c.job], order, true, c.cancelled, behaviours, now)
    {
      ghost var c, was := calls[t], jobs[calls[t].job];
      ghost var d := Course(t, c.job, c.cancelled, was, PendingRuns(was), behaviours, jobs, cancellationEvents);
      order := RunAll(d, t, behaviours);
      ghost var job := jobs[c.job];
      RunsAreTold(was, job, c.cancelled, behaviours);
      ClosingMarks(job, FinalizeJob(job, c.cancelled, now, NextId(job)).status, now, NextId(job));
      ClosingStatus(job, c.cancelled, now, NextId(job));
      FinalizeCall(t, now);
    }

    /** The immediate collectors, then the deferred ones. */
    method RunAll(ghost d: Course, t: nat, behaviours: seq<Behaviour>) returns (ghost order: seq<nat>)
      requires Driving(t) && limit > 0 && calls[t] == Call(d.job, d.cancelled, Seeding(d.pending)) && d.pending == PendingRuns(d.was)
      requires d.call == t && d.behaviours == behaviours && d.Sane()
      requires jobs[d.job] == d.was && d.was.status == JobRunning && d.others == jobs && d.events == cancellationEvents
      modifies this
      ensures Midway(d, {}, order)
    {
      var immediate, deferred := BeginDispatch(d, t);
      order := RunEach(d, t, immediate, behaviours, d.pending, []);
      assert d.pending - immediate == deferred;
      order := RunEach(d, t, deferred, behaviours, deferred, order);
      assert deferred - deferred == {};
    }

    /** Past the seeding: every pending run waits, and nothing has been recorded. */
    method BeginDispatch(ghost d: Course, t: nat) returns (immediate: set<nat>, deferred: set<nat>)
      requires Driving(t) && calls[t] == Call(d.job, d.cancelled, Seeding(d.pending)) && d.pending == PendingRuns(d.was)
      requires d.call == t && d.Sane()
      requires jobs[d.job] == d.was && d.was.status == JobRunning && d.others == jobs && d.events == cancellationEvents
      modifies this
      ensures Midway(d, d.pending, [])
      ensures immediate + deferred == d.pending && immediate !! deferred
      ensures forall r :: r in immediate ==> r < |d.was.runs| && !Deferred(d.was.runs[r])
      ensures forall r :: r in deferred ==> r < |d.was.runs| && Deferred(d.was.runs[r])
    {
      var job, pending := jobs[calls[t].job], calls[t].stage.pending;
      immediate := set r | r in pending && !Deferred(job.runs[r]);
      deferred := set r | r in pending && Deferred(job.runs[r]);
      Advance(t, SeedSucceeds);
      assert FirstProgress(job, pending) == ProgressAt(job, pending, pending);
    }

    method FinalizeCall(t: nat, now: int)
      requires Driving(t) && calls[t].stage.Dispatching?
      requires |calls[t].stage.progress| == |jobs[calls[t].job].runs| && AllSettled(calls[t].stage.progress)
      modifies this
      ensures Driving(t)
      ensures var c := old(calls)[t]; var job := old(jobs)[c.job];
              State() == Put(old(State()), t, FinalizeJob(job, c.cancelled, now, NextId(job)), Finished)
    {
      IdsAscend(limit, history, calls[t].job);
      Advance(t, Finalize(now, NextId(jobs[calls[t].job])));
    }

    /** Whatever happened, `run_job` takes its event out of the map last. */
    method LeaveCall(t: nat)
      requires Valid() && phase == Up && t in calls && calls[t].stage == Finished
      modifies this
      ensures Valid() && t !in calls && jobs == old(jobs)
      ensures cancellationEvents == old(cancellationEvents) - {old(calls)[t].job}
    {
      ExecAppend(Init(limit), history, Leave(t));
      cancellationEvents := cancellationEvents - {calls[t].job};
      calls := calls - {t};
      history := history + [Leave(t)];
    }
  }

  // ---------- what the methods need to know about reachable states ----------

  lemma EventIsACall(limit: nat, history: seq<Step>, j: JobId)
    requires j in Exec(Init(limit), history).registry
    ensures var s := Exec(Init(limit), history); s.registry[j] in s.calls && s.calls[s.registry[j]].job == j
  {
    Reachable(limit, history);
  }

  lemma IdleHaveNothingLeft(limit: nat, history: seq<Step>)
    requires Exec(Init(limit), history).phase == Up
    ensures var s := Exec(Init(limit), history);
            forall j :: j in s.jobs && s.jobs[j].status == JobRunning && !Active(s, j) ==> AllTerminal(s.jobs[j])
  {
    var s := Exec(Init(limit), history);
    forall j | j in s.jobs && s.jobs[j].status == JobRunning && !Active(s, j) ensures AllTerminal(s.jobs[j]) {
      IdleRunningIsStranded(limit, history, j);
    }
  }

  lemma NothingInFlightWhileDown(limit: nat, history: seq<Step>)
    requires Exec(Init(limit), history).phase == Down
    ensures Exec(Init(limit), history).calls == map[] && Exec(Init(limit), history).registry == map[]
  {
    Reachable(limit, history);
  }

  lemma PendingIsLoaded(limit: nat, history: seq<Step>, t: nat)
    requires var s := Exec(Init(limit), history); t in s.calls && s.calls[t].stage.Seeding? && s.calls[t].job in s.jobs
    ensures var s := Exec(Init(limit), history); s.calls[t].stage.pending == PendingRuns(s.jobs[s.calls[t].job])
  {
    Reachable(limit, history);
    DrivenRow(Exec(Init(limit), history), t);
  }

  lemma SeedFailureIsNext(s: System, t: nat, now: int, id: int)
    requires s.phase == Up && t in s.calls && s.calls[t].stage.Seeding? && s.calls[t].job in s.jobs
    requires Newer(s.jobs[s.calls[t].job], id)
    ensures Next(s, Advance(t, SeedFails(now, id))) ==
            Put(s, t, FailBeforeDispatch(s.jobs[s.calls[t].job], s.calls[t].stage.pending, now, id), Finished)
  {
  }

  lemma RunningWhileLoading(limit: nat, history: seq<Step>, t: nat)
    requires var s := Exec(Init(limit), history); t in s.calls && s.calls[t].stage == Loading && s.calls[t].job in s.jobs
    ensures var s := Exec(Init(limit), history); s.jobs[s.calls[t].job].status == JobRunning
  {
    Reachable(limit, history);
    DrivenRow(Exec(Init(limit), history), t);
  }

  lemma BatchIsPersisted(was: Job, r: nat, batch: seq<string>)
    requires r < |was.runs|
    ensures var findings := PersistFindings(was, r, batch).findings;
            && |findings| == |was.findings| + |batch| && was.findings <= findings
            && forall i :: 0 <= i < |batch| ==> findings[|was.findings| + i] == Finding(was.runs[r].collector, batch[i])
  {
  }

  predicate OthersKept(was: map<JobId, Job>, jobs: map<JobId, Job>, j: JobId) {
    jobs.Keys == was.Keys && forall k :: k in jobs && k != j ==> jobs[k] == was[k]
  }

  /** Whether the deny-list of a new gateway is seeded for a target, and with what. */
  ghost predicate SeededFor(target: Outbound.Target, resolution: Outbound.Resolution, clock: real, seeded: bool, clock': real, denied: Network.Denied) {
    match target
    case Ip(address) => seeded && denied == Network.Denied({address}, [])
    case Cidr(network) => seeded && denied == Network.Denied({}, [network])
    case Domain(_) => resolution.Outcome(clock, Network.Denied({}, []), seeded, clock', denied)
    case Organization => !seeded && denied == Network.Denied({}, [])
  }

  /** What stays fixed during a dispatch: the call and its job, the job's row and pending runs at the start, how
      its collectors behave, the other rows, and the map of events. */
  datatype Course = Course(call: nat, job: JobId, cancelled: bool, was: Job, pending: set<nat>, behaviours: seq<Behaviour>,
                           others: map<JobId, Job>, events: map<JobId, nat>)
  {
    predicate Sane() {
      && |behaviours| == |was.runs| && (forall i :: 0 <= i < |behaviours| ==> behaviours[i].Typed())
      && forall r :: r in pending ==> r < |was.runs|
    }
  }

  lemma PutTwice(s: System, t: nat, job: Job, stage: Stage, job': Job, stage': Stage)
    requires t in s.calls
    ensures Put(Put(s, t, job, stage), t, job', stage') == Put(s, t, job', stage')
  {
    var j := s.calls[t].job;
    assert s.jobs[j := job][j := job'] == s.jobs[j := job'];
  }

  lemma TwoFound(job: Job, name: string, a: nat, b: nat)
    requires a < b < |job.runs| && job.runs[a].collector == name == job.runs[b].collector
    ensures |Named(job, name)| > 1
    ensures forall r: nat :: Named(job, name) != {r} && !JobRunner.OnlyRunOf(job, r, name)
  {
    assert a in Named(job, name) && b in Named(job, name);
    assert {a, b} <= Named(job, name);
    assert |{a, b}| == 2;
    Subset({a, b}, Named(job, name));
  }

  lemma {:induction false} Subset(a: set<nat>, b: set<nat>)
    requires a <= b
    ensures |a| <= |b|
  {
    if a != {} {
      var x :| x in a;
      Subset(a - {x}, b - {x});
    }
  }
}
