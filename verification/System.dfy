/** The whole application: its rows, the `run_job` calls in flight, the in-memory map of cancellation
    events, and every step that can come next. A step that is refused changes nothing. */
module System {
  import opened Wrappers
  import opened Sums
  import opened Rows
  import opened Dispatch

  type JobId = string

  /** One call of `run_job`. `cancelled` is the event the call created for itself. */
  datatype Call = Call(job: JobId, cancelled: bool, stage: Stage)

  /** `registry` maps a job to the call whose event `_cancellation_events` holds for it.
      `used` remembers every job id ever handed out, and `nextCall` numbers the calls:
      neither an id nor a number comes back. */
  datatype System = System(
    limit: nat,
    phase: Phase,
    jobs: map<JobId, Job>,
    calls: map<nat, Call>,
    registry: map<JobId, nat>,
    nextCall: nat,
    used: set<JobId>)

  datatype Step =
    | Create(j: JobId, sources: seq<string>, now: int)
    | Claim(j: JobId, now: int)
    | Cancel(j: JobId, now: int, id: int)
    | Retry(j: JobId, name: string)
    | Delete(j: JobId)
    | Sweep(cutoff: int)
    | Advance(t: nat, move: Move)
    | Leave(t: nat)
    | Kill
    | RecoverRows
    | Resume(j: JobId)
    | Serve

  function Init(limit: nat): System {
    System(limit, Down, map[], map[], map[], 0, {})
  }

  predicate Active(s: System, j: JobId) { j in s.registry }

  predicate Resumable(s: System, j: JobId) {
    j in s.jobs && s.jobs[j].status == JobRunning && HasPending(s.jobs[j])
  }

  /** A retry by name looks up exactly one run and wants it FAILED; with two runs of that name the
      lookup itself raises. */
  predicate RetryAccepts(s: System, j: JobId, name: string) {
    && j in s.jobs && !Active(s, j)
    && exists r: nat :: Named(s.jobs[j], name) == {r} && r < |s.jobs[j].runs| && s.jobs[j].runs[r].status == Failed
  }

  function TheRun(job: Job, name: string): (r: nat)
    requires exists q: nat :: Named(job, name) == {q}
    ensures r < |job.runs| && Named(job, name) == {r} && job.runs[r].collector == name
  {
    var q: nat :| Named(job, name) == {q};
    assert q in Named(job, name);
    q
  }

  predicate Expired(job: Job, cutoff: int) {
    job.status.Terminal() && job.finishedAt.Some? && job.finishedAt.value < cutoff
  }

  function Register(s: System, j: JobId): System {
    s.(calls := s.calls[s.nextCall := Call(j, false, Loading)],
       registry := s.registry[j := s.nextCall],
       nextCall := s.nextCall + 1)
  }

  function Put(s: System, t: nat, job: Job, stage: Stage): System
    requires t in s.calls
  {
    s.(jobs := s.jobs[s.calls[t].job := job], calls := s.calls[t := s.calls[t].(stage := stage)])
  }

  /** The cancel request on a RUNNING job sets whatever event the map holds for it. */
  function SetEvent(s: System, j: JobId): System {
    if j in s.registry && s.registry[j] in s.calls then
      s.(calls := s.calls[s.registry[j] := s.calls[s.registry[j]].(cancelled := true)])
    else s
  }

  function Next(s: System, step: Step): System {
    match step
    case Create(j, sources, now) =>
      if s.phase == Up && j !in s.used && |sources| > 0
      then s.(jobs := s.jobs[j := NewJob(sources, now)], used := s.used + {j}) else s
    case Claim(j, now) =>
      if s.phase == Up && j in s.jobs && s.jobs[j].status == JobQueued
      then Register(s.(jobs := s.jobs[j := ClaimJob(s.jobs[j], now)]), j) else s
    case Cancel(j, now, id) =>
      if s.phase != Up || j !in s.jobs then s
      else if s.jobs[j].status == JobQueued && Newer(s.jobs[j], id)
      then s.(jobs := s.jobs[j := CloseJob(s.jobs[j], Canceled, now, id)])
      else if s.jobs[j].status == JobRunning then SetEvent(s, j) else s
    case Retry(j, name) =>
      if s.phase == Up && RetryAccepts(s, j, name)
      then s.(jobs := s.jobs[j := RequeueRun(s.jobs[j], TheRun(s.jobs[j], name))]) else s
    case Delete(j) =>
      if s.phase == Up && j in s.jobs && !Active(s, j) then s.(jobs := s.jobs - {j}) else s
    case Sweep(cutoff) =>
      if s.phase != Down
      then s.(jobs := map j | j in s.jobs && !Expired(s.jobs[j], cutoff) :: s.jobs[j]) else s
    case Advance(t, move) =>
      if s.phase == Up && t in s.calls && s.calls[t].job in s.jobs then
        var c := s.calls[t];
        match MoveJob(s.limit, c.cancelled, c.stage, s.jobs[c.job], move)
        case Some((job, stage)) => Put(s, t, job, stage)
        case None => s
      else s
    case Leave(t) =>
      if s.phase == Up && t in s.calls && s.calls[t].stage == Finished
      then s.(calls := s.calls - {t}, registry := s.registry - {s.calls[t].job}) else s
    case Kill =>
      s.(phase := Down, calls := map[], registry := map[], jobs := map j | j in s.jobs :: Crash(s.jobs[j]))
    case RecoverRows =>
      if s.phase == Down
      then s.(phase := Recovered, jobs := map j | j in s.jobs :: Recover(s.jobs[j])) else s
    case Resume(j) =>
      if s.phase == Recovered && Resumable(s, j) && !Active(s, j) then Register(s, j) else s
    case Serve =>
      if s.phase == Recovered && forall j :: j in s.jobs && Resumable(s, j) ==> Active(s, j)
      then s.(phase := Up) else s
  }

  function Exec(s: System, steps: seq<Step>): System
    decreases |steps|
  {
    if steps == [] then s else Exec(Next(s, steps[0]), steps[1..])
  }

  // ---------- the invariant ----------

  function StageOf(s: System, j: JobId): Option<Stage> {
    if j in s.registry && s.registry[j] in s.calls then Some(s.calls[s.registry[j]].stage) else None
  }

  predicate CallOk(s: System, t: nat)
    requires t in s.calls
  {
    var c := s.calls[t];
    && t < s.nextCall
    && c.job in s.registry && s.registry[c.job] == t
    && (c.stage != Finished ==> c.job in s.jobs)
    && (s.phase == Recovered ==> c.stage == Loading)
  }

  predicate RegistryOk(s: System) {
    && (forall t :: t in s.calls ==> CallOk(s, t))
    && (forall j :: j in s.registry ==> s.registry[j] in s.calls && s.calls[s.registry[j]].job == j)
    && (forall j :: j in s.registry ==> j in s.used)
    && (forall j :: j in s.jobs ==> j in s.used)
    && (s.phase == Down ==> s.calls == map[])
  }

  ghost predicate JobsOk(s: System) {
    forall j :: j in s.jobs ==> JobOk(s.limit, s.phase, s.jobs[j], StageOf(s, j))
  }

  ghost predicate Inv(s: System) { RegistryOk(s) && JobsOk(s) }

  // ---------- every step keeps it ----------

  lemma {:induction false} NewJobOk(sources: seq<string>, now: int, limit: nat)
    requires |sources| > 0
    ensures JobOk(limit, Up, NewJob(sources, now), None)
  {
    var job := NewJob(sources, now);
    assert job.runs[0].status == Queued;
    forall name: string ensures LedgerFor(job, name) {
      SumZero(job.runs, AttemptsOf(name));
      SumZero(job.runs, OpenOf(name));
      SumZero(job.runs, CommittedOf(name));
    }
  }

  /** A row rewritten without touching runs, events or findings keeps its ledgers. */
  lemma SameLedgers(job: Job, job': Job)
    requires job'.runs == job.runs && job'.events == job.events && job'.findings == job.findings
    ensures forall name: string :: LedgerFor(job, name) ==> LedgerFor(job', name)
  {
  }

  lemma CancelQueuedOk(limit: nat, phase: Phase, job: Job, now: int, id: int)
    requires JobOk(limit, phase, job, None) && job.status == JobQueued && Newer(job, id)
    ensures JobOk(limit, phase, CloseJob(job, Canceled, now, id), None)
  {
    var job' := CloseJob(job, Canceled, now, id);
    assert Has(job', Running) == Has(job, Running) && Has(job', Interrupted) == Has(job, Interrupted);
    forall name: string ensures LedgerFor(job', name) { LedgerOfClose(job, Canceled, now, id, name); }
  }

  lemma RequeueOk(limit: nat, job: Job, r: nat)
    requires JobOk(limit, Up, job, None) && r < |job.runs| && job.runs[r].status == Failed
    ensures JobOk(limit, Up, RequeueRun(job, r), None)
  {
    var job' := RequeueRun(job, r);
    assert job'.runs[r].status == Queued && RunOk(job.runs[r]);
    forall i | 0 <= i < |job'.runs| ensures job'.runs[i].status != Running && job'.runs[i].status != Interrupted {
      assert i != r ==> job'.runs[i] == job.runs[i];
    }
    forall name: string ensures LedgerFor(job', name) {
      assert LedgerFor(job, name);
      LedgerOfRewrite(job, job'.runs, name);
    }
  }

  lemma SameStatuses(job: Job, job': Job)
    requires |job'.runs| == |job.runs|
    requires forall i :: 0 <= i < |job.runs| ==> job'.runs[i].status == job.runs[i].status
    ensures forall st :: Has(job', st) == Has(job, st)
    ensures AllTerminal(job') == AllTerminal(job) && HasPending(job') == HasPending(job)
  {
    forall st ensures Has(job', st) == Has(job, st) {
      if Has(job, st) {
        var i :| 0 <= i < |job.runs| && job.runs[i].status == st;
        assert job'.runs[i].status == st;
      }
    }
    if HasPending(job) {
      var i :| 0 <= i < |job.runs| && job.runs[i].status.Pending();
      assert job'.runs[i].status.Pending();
    }
    if AllTerminal(job') {
      forall i | 0 <= i < |job.runs| ensures job.runs[i].status.Terminal() {
        assert job'.runs[i].status.Terminal();
      }
    }
  }

  lemma CrashKeepsStatus(limit: nat, phase: Phase, job: Job, stage: Option<Stage>)
    requires JobOk(limit, phase, job, stage)
    ensures StatusOk(Down, Crash(job), None)
  {
    SameStatuses(job, Crash(job));
    if SeedFailed(job) {
      var i :| 0 <= i < |job.runs| && job.runs[i].status == Failed && job.runs[i].errorCode == Some("deny_list_seed_failed");
      assert Crash(job).runs[i].errorCode == job.runs[i].errorCode;
    }
  }

  lemma CrashOk(limit: nat, phase: Phase, job: Job, stage: Option<Stage>)
    requires JobOk(limit, phase, job, stage)
    ensures JobOk(limit, Down, Crash(job), None)
  {
    var job' := Crash(job);
    CrashKeepsStatus(limit, phase, job, stage);
    forall i | 0 <= i < |job'.runs| ensures RunOk(job'.runs[i]) && job'.runs[i].unrecorded == 0 {
      assert RunOk(job.runs[i]);
    }
    forall name: string ensures LedgerFor(job', name) {
      assert LedgerFor(job, name);
      LedgerOfRewrite(job, job'.runs, name);
    }
  }

  lemma RecoverOk(limit: nat, job: Job)
    requires JobOk(limit, Down, job, None)
    ensures JobOk(limit, Recovered, Recover(job), None)
  {
    var job' := Recover(job);
    forall i | 0 <= i < |job'.runs|
      ensures RunOk(job'.runs[i]) && job'.runs[i].unrecorded == 0 && job'.runs[i].status != Running
    {
      assert RunOk(job.runs[i]) && job.runs[i].unrecorded == 0;
    }
    if job.status != JobRunning {
      RecoverLeaves(job);
    }
    forall name: string ensures LedgerFor(job', name) {
      assert LedgerFor(job, name);
      LedgerOfRewrite(job, job'.runs, name);
    }
  }

  lemma RecoverLeaves(job: Job)
    requires !Has(job, Running) || AllTerminal(job)
    ensures Recover(job) == job
  {
    forall i | 0 <= i < |job.runs| ensures Recover(job).runs[i] == job.runs[i] {
      assert job.runs[i].status != Running;
    }
    assert Recover(job).runs == job.runs;
  }

  lemma PutKeepsInv(s: System, t: nat, job: Job, stage: Stage)
    requires Inv(s) && s.phase == Up && t in s.calls && s.calls[t].job in s.jobs
    requires JobOk(s.limit, Up, job, Some(stage))
    ensures Inv(Put(s, t, job, stage))
  {
    var s' := Put(s, t, job, stage);
    assert CallOk(s, t);
    forall u | u in s'.calls ensures CallOk(s', u) {
      assert CallOk(s, u);
    }
    forall j | j in s'.jobs ensures JobOk(s'.limit, s'.phase, s'.jobs[j], StageOf(s', j)) {
      if j != s.calls[t].job {
        assert StageOf(s', j) == StageOf(s, j);
      }
    }
  }

  lemma AdvanceKeepsInv(s: System, t: nat, move: Move)
    requires Inv(s)
    ensures Inv(Next(s, Advance(t, move)))
  {
    if s.phase == Up && t in s.calls && s.calls[t].job in s.jobs {
      var c := s.calls[t];
      match MoveJob(s.limit, c.cancelled, c.stage, s.jobs[c.job], move)
      case None =>
      case Some((job, stage)) =>
        MoveKeepsJobOk(s.limit, c.cancelled, s.jobs[c.job], c.stage, move);
        PutKeepsInv(s, t, job, stage);
    }
  }

  lemma RegisterKeepsRegistry(s: System, j: JobId)
    requires RegistryOk(s) && j in s.used && j !in s.registry && j in s.jobs && s.phase != Down
    ensures RegistryOk(Register(s, j))
  {
    var s' := Register(s, j);
    forall u | u in s'.calls ensures CallOk(s', u) {
      if u != s.nextCall { assert CallOk(s, u); }
    }
    forall k | k in s'.registry ensures s'.registry[k] in s'.calls && s'.calls[s'.registry[k]].job == k && k in s'.used {
      if k != j { assert CallOk(s, s.registry[k]); }
    }
  }

  lemma RegisterKeepsStages(s: System, j: JobId, k: JobId)
    requires RegistryOk(s)
    ensures StageOf(Register(s, j), k) == if k == j then Some(Loading) else StageOf(s, k)
  {
    if k != j && k in s.registry { assert CallOk(s, s.registry[k]); }
  }

  lemma RegisterKeepsInv(s: System, s': System, j: JobId)
    requires RegistryOk(s) && j in s.used && j !in s.registry && j in s'.jobs && s.phase != Down
    requires s' == Register(s.(jobs := s'.jobs), j)
    requires s'.jobs.Keys == s.jobs.Keys
    requires forall k :: k in s.jobs && k != j ==> s'.jobs[k] == s.jobs[k]
    requires JobsOk(s) && JobOk(s.limit, s.phase, s'.jobs[j], Some(Loading))
    ensures Inv(s')
  {
    var s1 := s.(jobs := s'.jobs);
    forall u | u in s1.calls ensures CallOk(s1, u) { assert CallOk(s, u); }
    RegisterKeepsRegistry(s1, j);
    forall k | k in s'.jobs ensures JobOk(s'.limit, s'.phase, s'.jobs[k], StageOf(s', k)) {
      RegisterKeepsStages(s1, j, k);
      assert StageOf(s1, k) == StageOf(s, k);
    }
  }

  lemma ClaimKeepsInv(s: System, j: JobId, now: int)
    requires Inv(s)
    ensures Inv(Next(s, Claim(j, now)))
  {
    if s.phase == Up && j in s.jobs && s.jobs[j].status == JobQueued {
      var job := s.jobs[j];
      assert JobOk(s.limit, s.phase, job, StageOf(s, j));
      var i :| 0 <= i < |job.runs| && job.runs[i].status == Queued;
      var job' := ClaimJob(job, now);
      assert job'.runs[i].status.Pending();
      assert !Has(job', Running);
      SameLedgers(job, job');
      RegisterKeepsInv(s, Next(s, Claim(j, now)), j);
    }
  }

  /** Steps that change one idle job's row and nothing else. */
  lemma IdleUpdateKeepsInv(s: System, j: JobId, job: Job)
    requires Inv(s) && j in s.jobs && StageOf(s, j) == None
    requires JobOk(s.limit, s.phase, job, None)
    ensures Inv(s.(jobs := s.jobs[j := job]))
  {
    var s' := s.(jobs := s.jobs[j := job]);
    forall u | u in s'.calls ensures CallOk(s', u) {
      assert CallOk(s, u);
    }
    forall k | k in s'.jobs ensures JobOk(s'.limit, s'.phase, s'.jobs[k], StageOf(s', k)) {
      assert StageOf(s', k) == StageOf(s, k);
    }
  }

  lemma CreateKeepsInv(s: System, j: JobId, sources: seq<string>, now: int)
    requires Inv(s)
    ensures Inv(Next(s, Create(j, sources, now)))
  {
    var s' := Next(s, Create(j, sources, now));
    if s' != s {
      NewJobOk(sources, now, s.limit);
      forall u | u in s'.calls ensures CallOk(s', u) {
        assert CallOk(s, u);
      }
      forall k | k in s'.jobs ensures JobOk(s'.limit, s'.phase, s'.jobs[k], StageOf(s', k)) {
        assert StageOf(s', k) == StageOf(s, k);
      }
    }
  }

  lemma CancelKeepsInv(s: System, j: JobId, now: int, id: int)
    requires Inv(s)
    ensures Inv(Next(s, Cancel(j, now, id)))
  {
    var s' := Next(s, Cancel(j, now, id));
    if s.phase == Up && j in s.jobs {
      if s.jobs[j].status == JobQueued && Newer(s.jobs[j], id) {
        assert JobOk(s.limit, s.phase, s.jobs[j], StageOf(s, j));
        CancelQueuedOk(s.limit, s.phase, s.jobs[j], now, id);
        IdleUpdateKeepsInv(s, j, CloseJob(s.jobs[j], Canceled, now, id));
      } else if s.jobs[j].status == JobRunning {
        forall u | u in s'.calls ensures CallOk(s', u) {
          assert CallOk(s, u);
        }
        forall k | k in s'.jobs ensures JobOk(s'.limit, s'.phase, s'.jobs[k], StageOf(s', k)) {
          assert StageOf(s', k) == StageOf(s, k);
        }
      }
    }
  }

  lemma RetryKeepsInv(s: System, j: JobId, name: string)
    requires Inv(s)
    ensures Inv(Next(s, Retry(j, name)))
  {
    if s.phase == Up && RetryAccepts(s, j, name) {
      var r := TheRun(s.jobs[j], name);
      assert s.jobs[j].runs[r].status == Failed by {
        var q: nat :| Named(s.jobs[j], name) == {q} && q < |s.jobs[j].runs| && s.jobs[j].runs[q].status == Failed;
        assert q in {r};
      }
      assert JobOk(s.limit, s.phase, s.jobs[j], StageOf(s, j));
      RequeueOk(s.limit, s.jobs[j], r);
      IdleUpdateKeepsInv(s, j, RequeueRun(s.jobs[j], r));
    }
  }

  lemma LeaveKeepsInv(s: System, t: nat)
    requires Inv(s)
    ensures Inv(Next(s, Leave(t)))
  {
    var s' := Next(s, Leave(t));
    if s' != s {
      var gone := s.calls[t].job;
      assert CallOk(s, t);
      forall u | u in s'.calls ensures CallOk(s', u) {
        assert CallOk(s, u);
      }
      forall k | k in s'.registry ensures s'.registry[k] in s'.calls && s'.calls[s'.registry[k]].job == k {
        assert s.registry[k] in s.calls && s.calls[s.registry[k]].job == k;
      }
      forall k | k in s'.jobs ensures JobOk(s'.limit, s'.phase, s'.jobs[k], StageOf(s', k)) {
        assert JobOk(s.limit, s.phase, s.jobs[k], StageOf(s, k));
        if k == gone {
          assert StageOf(s', k) == None;
        } else {
          assert StageOf(s', k) == StageOf(s, k);
        }
      }
    }
  }

  lemma KillKeepsInv(s: System)
    requires Inv(s)
    ensures Inv(Next(s, Kill))
  {
    var s' := Next(s, Kill);
    forall j | j in s'.jobs ensures JobOk(s'.limit, s'.phase, s'.jobs[j], StageOf(s', j)) {
      CrashOk(s.limit, s.phase, s.jobs[j], StageOf(s, j));
    }
  }

  lemma RecoverKeepsInv(s: System)
    requires Inv(s) && s.phase == Down
    ensures Inv(Next(s, RecoverRows))
  {
    var s' := Next(s, RecoverRows);
    forall j | j in s'.jobs ensures JobOk(s'.limit, s'.phase, s'.jobs[j], StageOf(s', j)) {
      assert StageOf(s, j) == None;
      RecoverOk(s.limit, s.jobs[j]);
    }
  }

  lemma ServeKeepsInv(s: System)
    requires Inv(s) && Next(s, Serve) != s
    ensures Inv(Next(s, Serve))
  {
    var s' := Next(s, Serve);
    forall u | u in s'.calls ensures CallOk(s', u) {
      assert CallOk(s, u);
    }
    forall j | j in s'.jobs ensures JobOk(s'.limit, s'.phase, s'.jobs[j], StageOf(s', j)) {
      assert StageOf(s', j) == StageOf(s, j);
    }
  }

  lemma StartupKeepsInv(s: System, step: Step)
    requires Inv(s) && (step == RecoverRows || step == Serve || step.Resume?)
    ensures Inv(Next(s, step))
  {
    var s' := Next(s, step);
    if s' != s {
      match step
      case RecoverRows => RecoverKeepsInv(s);
      case Resume(j) =>
        assert JobOk(s.limit, s.phase, s.jobs[j], StageOf(s, j));
        RegisterKeepsInv(s, s', j);
      case Serve => ServeKeepsInv(s);
    }
  }

  lemma NextKeepsInv(s: System, step: Step)
    requires Inv(s)
    ensures Inv(Next(s, step))
  {
    match step
    case Create(j, sources, now) => CreateKeepsInv(s, j, sources, now);
    case Claim(j, now) => ClaimKeepsInv(s, j, now);
    case Cancel(j, now, id) => CancelKeepsInv(s, j, now, id);
    case Retry(j, name) => RetryKeepsInv(s, j, name);
    case Delete(j) =>
    case Sweep(cutoff) =>
    case Advance(t, move) => AdvanceKeepsInv(s, t, move);
    case Leave(t) => LeaveKeepsInv(s, t);
    case Kill => KillKeepsInv(s);
    case _ => StartupKeepsInv(s, step);
  }

  /** Every state any run of the application can reach is in order. */
  lemma {:induction false} ExecKeepsInv(s: System, steps: seq<Step>)
    requires Inv(s)
    ensures Inv(Exec(s, steps))
    decreases |steps|
  {
    if steps != [] {
      NextKeepsInv(s, steps[0]);
      ExecKeepsInv(Next(s, steps[0]), steps[1..]);
    }
  }

  lemma Reachable(limit: nat, steps: seq<Step>)
    ensures Inv(Exec(Init(limit), steps))
  {
    ExecKeepsInv(Init(limit), steps);
  }

  // ---------- runs ----------

  lemma {:induction false} ExecAppend(s: System, steps: seq<Step>, step: Step)
    ensures Exec(s, steps + [step]) == Next(Exec(s, steps), step)
    decreases |steps|
  {
    if steps == [] {
      assert Exec(s, [step]) == Exec(Next(s, step), [step][1..]);
    } else {
      assert (steps + [step])[1..] == steps[1..] + [step];
      ExecAppend(Next(s, steps[0]), steps[1..], step);
    }
  }

  lemma {:induction false} ExecConcat(s: System, a: seq<Step>, b: seq<Step>)
    ensures Exec(s, a + b) == Exec(Exec(s, a), b)
    decreases |a|
  {
    if a == [] {
      assert a + b == b;
    } else {
      assert (a + b)[1..] == a[1..] + b;
      ExecConcat(Next(s, a[0]), a[1..], b);
    }
  }

  lemma ExecSplit(s: System, steps: seq<Step>, a: nat, b: nat)
    requires a <= b <= |steps|
    ensures Exec(s, steps[..b]) == Exec(Exec(s, steps[..a]), steps[a..b])
  {
    assert steps[..b] == steps[..a] + steps[a..b];
    ExecConcat(s, steps[..a], steps[a..b]);
  }

  /** Some run leads here. The theorems about runs start from this, and open the invariant only where they need it. */
  ghost predicate Reached(s: System) {
    exists limit: nat, steps: seq<Step> :: s == Exec(Init(limit), steps)
  }

  lemma InvOf(s: System)
    requires Reached(s)
    ensures Inv(s)
  {
    var limit: nat, steps: seq<Step> :| s == Exec(Init(limit), steps);
    Reachable(limit, steps);
  }

  lemma ReachedNext(s: System, step: Step)
    requires Reached(s)
    ensures Reached(Next(s, step))
  {
    var limit: nat, steps: seq<Step> :| s == Exec(Init(limit), steps);
    ExecAppend(Init(limit), steps, step);
  }

  lemma ReachedExec(s: System, steps: seq<Step>)
    requires Reached(s)
    ensures Reached(Exec(s, steps))
  {
    var limit: nat, first: seq<Step> :| s == Exec(Init(limit), first);
    ExecConcat(Init(limit), first, steps);
  }

  lemma RowOf(s: System, j: JobId)
    requires Reached(s) && j in s.jobs
    ensures JobOk(s.limit, s.phase, s.jobs[j], StageOf(s, j))
  {
    InvOf(s);
  }

  lemma RowIsUsed(s: System, j: JobId)
    requires Reached(s) && j in s.jobs
    ensures j in s.used
  {
    InvOf(s);
  }

  lemma CallOf(s: System, t: nat)
    requires Reached(s) && t in s.calls
    ensures CallOk(s, t)
  {
    InvOf(s);
  }

  /** The row of a job that a call drives. */
  lemma DrivenRow(s: System, t: nat)
    requires Reached(s) && t in s.calls && s.calls[t].job in s.jobs
    ensures JobOk(s.limit, s.phase, s.jobs[s.calls[t].job], Some(s.calls[t].stage))
  {
    InvOf(s);
  }
}
