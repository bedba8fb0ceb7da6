/** The server-sent event stream of one job: a loop that polls the event table and the job's status. */
module EventStream {
  import opened Wrappers
  import opened Rows
  import opened Dispatch
  import opened System
  import opened Lifecycle
  import opened Retrying

  /** What one poll reads. The two reads are separate queries, so the status may be the later one:
      None stands for a job that is gone. */
  datatype Poll = Poll(events: seq<Event>, status: Option<JobStatus>)

  predicate Ascending(events: seq<Event>) {
    forall i, k :: 0 <= i < k < |events| ==> events[i].id < events[k].id
  }

  /** The events with `last < id <= seen`, in order. */
  function Between(events: seq<Event>, last: int, seen: int): seq<Event> {
    if events == [] then []
    else if last < events[0].id <= seen then [events[0]] + Between(events[1..], last, seen)
    else Between(events[1..], last, seen)
  }

  /** The poll's own query: everything above `seen`. */
  function After(events: seq<Event>, seen: int): seq<Event> {
    if events == [] then []
    else if events[0].id > seen then [events[0]] + After(events[1..], seen)
    else After(events[1..], seen)
  }

  predicate Ends(poll: Poll) {
    poll.status.None? || poll.status.value.Terminal()
  }

  predicate Ongoing(poll: Poll) {
    poll.status == Some(JobQueued) || poll.status == Some(JobRunning)
  }

  lemma OngoingOrEnds(poll: Poll)
    ensures Ongoing(poll) <==> !Ends(poll)
    ensures Ends(poll) <==> poll.status == None || poll.status.value in {Completed, CompletedWithWarnings, JobFailed, Canceled}
  {
  }

  /** What a poll finds once the job has been deleted or swept: its events went with it. */
  predicate Gone(poll: Poll) { poll == Poll([], None) }

  /** Ids grow along every log; as long as the stream goes on, each poll sees the log of the one before, perhaps
      longer, or finds the job gone. */
  predicate Chained(polls: seq<Poll>) {
    && (forall i :: 0 <= i < |polls| ==> Ascending(polls[i].events))
    && (forall i :: 0 <= i < |polls| - 1 && !Ends(polls[i]) ==> Extends(polls[i], polls[i + 1]))
  }

  predicate Extends(poll: Poll, next: Poll) { Gone(next) || poll.events <= next.events }

  // ---------- lemmas about the two selections ----------

  lemma {:induction false} BetweenConcat(a: seq<Event>, b: seq<Event>, last: int, seen: int)
    ensures Between(a + b, last, seen) == Between(a, last, seen) + Between(b, last, seen)
  {
    if a == [] {
      assert a + b == b;
    } else {
      assert (a + b)[1..] == a[1..] + b;
      BetweenConcat(a[1..], b, last, seen);
    }
  }

  lemma {:induction false} BetweenNone(events: seq<Event>, last: int, seen: int)
    requires forall i :: 0 <= i < |events| ==> events[i].id <= last || events[i].id > seen
    ensures Between(events, last, seen) == []
  {
    if events != [] { BetweenNone(events[1..], last, seen); }
  }

  lemma {:induction false} AfterIsBetween(events: seq<Event>, seen: int, top: int)
    requires forall i :: 0 <= i < |events| ==> events[i].id <= top
    ensures After(events, seen) == Between(events, seen, top)
  {
    if events != [] { AfterIsBetween(events[1..], seen, top); }
  }

  lemma {:induction false} BetweenSplit(events: seq<Event>, a: int, b: int, c: int)
    requires Ascending(events) && a <= b <= c
    ensures Between(events, a, b) + Between(events, b, c) == Between(events, a, c)
  {
    if events != [] {
      var rest := events[1..];
      TailAscends(events);
      BetweenSplit(rest, a, b, c);
      if events[0].id > b {
        BetweenNone(rest, a, b);
        assert Between(events, a, b) == [];
      }
    }
  }

  lemma TailAscends(events: seq<Event>)
    requires Ascending(events) && events != []
    ensures Ascending(events[1..]) && forall i :: 0 <= i < |events[1..]| ==> events[1..][i].id > events[0].id
  {
  }

  lemma {:induction false} BetweenMembers(events: seq<Event>, e: Event, last: int, seen: int)
    ensures e in Between(events, last, seen) <==> e in events && last < e.id <= seen
  {
    if events != [] {
      assert e in events <==> e == events[0] || e in events[1..];
      BetweenMembers(events[1..], e, last, seen);
    }
  }

  /** Nothing a poll has not seen can carry an id at or below the newest it has. */
  lemma OlderLogSuffices(older: seq<Event>, newer: seq<Event>, last: int, seen: int)
    requires older <= newer && Ascending(newer)
    requires seen <= last || (older != [] && seen <= older[|older| - 1].id)
    ensures Between(newer, last, seen) == Between(older, last, seen)
  {
    var rest := newer[|older|..];
    assert newer == older + rest;
    BetweenConcat(older, rest, last, seen);
    forall i | 0 <= i < |rest| ensures rest[i].id <= last || rest[i].id > seen {
      assert rest[i] == newer[|older| + i];
      if older != [] { assert newer[|older| - 1].id < newer[|older| + i].id; }
    }
    BetweenNone(rest, last, seen);
  }

  lemma {:induction false} AfterIsNewer(events: seq<Event>, seen: int)
    ensures forall i :: 0 <= i < |After(events, seen)| ==> After(events, seen)[i].id > seen
  {
    if events != [] { AfterIsNewer(events[1..], seen); }
  }

  lemma {:induction false} AfterLast(events: seq<Event>, seen: int)
    requires Ascending(events)
    ensures var more := After(events, seen);
            if more == [] then forall i :: 0 <= i < |events| ==> events[i].id <= seen
            else events != [] && more[|more| - 1] == events[|events| - 1]
  {
    if events != [] {
      var rest := events[1..];
      TailAscends(events);
      AfterLast(rest, seen);
      if events[0].id > seen && rest != [] { assert rest[|rest| - 1].id > seen; }
    }
  }

  // ---------- the stream ----------

  predicate SeenAll(log: seq<Event>, seen: int) {
    forall i :: 0 <= i < |log| ==> log[i].id <= seen
  }

  /** Exactly the log's events above the id the stream started from, each once and in order. */
  predicate Delivered(log: seq<Event>, last: int, yielded: seq<Event>, seen: int) {
    && last <= seen
    && yielded == Between(log, last, seen)
    && SeenAll(log, seen)
    && (seen == last || (log != [] && seen == log[|log| - 1].id))
  }

  /** The last log that the first `read` polls saw. */
  function LogAt(polls: seq<Poll>, read: nat): seq<Event>
    requires read <= |polls|
  {
    if read == 0 then [] else if Gone(polls[read - 1]) then LogAt(polls, read - 1) else polls[read - 1].events
  }

  function LastId(more: seq<Event>, seen: int): int {
    if more == [] then seen else more[|more| - 1].id
  }

  /** Yields a poll's rows one by one, remembering the id of each. */
  method Yield(before: seq<Event>, more: seq<Event>, was: int) returns (yielded: seq<Event>, seen: int)
    ensures yielded == before + more && seen == LastId(more, was)
  {
    yielded, seen := before, was;
    for i := 0 to |more|
      invariant yielded == before + more[..i]
      invariant seen == LastId(more[..i], was)
    {
      seen := more[i].id;
      yielded := yielded + [more[i]];
    }
    assert more[..|more|] == more;
  }

  /** What the stream has done after `read` polls. */
  predicate HasDelivered(polls: seq<Poll>, read: nat, last: int, yielded: seq<Event>, seen: int) {
    read <= |polls| && Delivered(LogAt(polls, read), last, yielded, seen)
  }

  method ReadPoll(polls: seq<Poll>, read: nat, lastEventId: int, yielded: seq<Event>, seen: int) returns (more: seq<Event>, newest: int)
    requires Chained(polls) && read < |polls| && forall i :: 0 <= i < read ==> !Ends(polls[i])
    requires HasDelivered(polls, read, lastEventId, yielded, seen)
    ensures HasDelivered(polls, read + 1, lastEventId, more, newest)
  {
    NextPoll(polls, read, lastEventId, yielded, seen);
    more, newest := Yield(yielded, After(polls[read].events, seen), seen);
  }

  /** The stream stops at the first poll that shows the job gone or finished, never for a queued or running one. Whenever it stops, or the
      polls run out, it has yielded exactly what the last log it saw held above the starting id. */
  method Stream(polls: seq<Poll>, lastEventId: int) returns (yielded: seq<Event>, seen: int, read: nat)
    requires Chained(polls)
    ensures read <= |polls| && Delivered(LogAt(polls, read), lastEventId, yielded, seen)
    ensures forall i :: 0 <= i < read - 1 ==> polls[i].status == Some(JobQueued) || polls[i].status == Some(JobRunning)
    ensures read < |polls| ==>
              && read > 0
              && (polls[read - 1].status == None || polls[read - 1].status.value in {Completed, CompletedWithWarnings, JobFailed, Canceled})
  {
    yielded, seen, read := [], lastEventId, 0;
    assert HasDelivered(polls, 0, lastEventId, [], lastEventId);
    while read < |polls|
      invariant HasDelivered(polls, read, lastEventId, yielded, seen)
      invariant forall i :: 0 <= i < read ==> !Ends(polls[i]) && Ongoing(polls[i])
    {
      OngoingOrEnds(polls[read]);
      yielded, seen := ReadPoll(polls, read, lastEventId, yielded, seen);
      read := read + 1;
      if Ends(polls[read - 1]) { return; }
    }
  }

  lemma NextPoll(polls: seq<Poll>, read: nat, last: int, yielded: seq<Event>, seen: int)
    requires Chained(polls) && read < |polls| && forall i :: 0 <= i < read ==> !Ends(polls[i])
    requires Delivered(LogAt(polls, read), last, yielded, seen)
    ensures var more := After(polls[read].events, seen);
            Delivered(LogAt(polls, read + 1), last, yielded + more, LastId(more, seen))
  {
    var poll := polls[read];
    if Gone(poll) {
      assert After(poll.events, seen) == [] && yielded + [] == yielded;
    } else {
      if read > 0 {
        var was := read - 1;
        assert !Ends(polls[was]) && Extends(polls[was], polls[was + 1]);
      }
      PollExtends(LogAt(polls, read), poll.events, last, yielded, seen, LastId(After(poll.events, seen), seen));
    }
  }

  /** One poll appends exactly what came after the id seen so far. */
  lemma PollExtends(older: seq<Event>, newer: seq<Event>, last: int, before: seq<Event>, was: int, seen: int)
    requires older <= newer && Ascending(newer) && Delivered(older, last, before, was)
    requires seen == LastId(After(newer, was), was)
    ensures Delivered(newer, last, before + After(newer, was), seen)
  {
    AfterLast(newer, was);
    AfterIsNewer(newer, was);
    AfterIsBetween(newer, was, seen);
    OlderLogSuffices(older, newer, last, was);
    BetweenSplit(newer, last, was, seen);
    assert |newer| > 0 ==> newer[|newer| - 1].id <= seen;
    assert older != [] ==> newer[|older| - 1] == older[|older| - 1];
  }

  /** Reconnecting with the last delivered id yields, joined to what came before, exactly what one
      uninterrupted stream would have yielded: nothing lost and nothing twice. */
  lemma ReconnectIsSeamless(older: seq<Event>, newer: seq<Event>, last: int, mid: int, seen: int)
    requires older <= newer && Ascending(newer) && last <= mid <= seen
    requires mid == last || (older != [] && mid <= older[|older| - 1].id)
    ensures Between(older, last, mid) + Between(newer, mid, seen) == Between(newer, last, seen)
  {
    OlderLogSuffices(older, newer, last, mid);
    BetweenSplit(newer, last, mid, seen);
  }

  // ---------- the stream over the running application ----------

  function Snapshot(s: System, j: JobId): Poll {
    if j in s.jobs then Poll(s.jobs[j].events, Some(s.jobs[j].status)) else Poll([], None)
  }

  /** Reading the events in one state and the status in a later one. */
  function SplitSnapshot(s: System, s': System, j: JobId): Poll {
    Poll(Snapshot(s, j).events, Snapshot(s', j).status)
  }

  /** While the job exists its log only grows, along ascending ids. */
  lemma LogsGrow(limit: nat, before: seq<Step>, steps: seq<Step>, j: JobId)
    requires j in Exec(Init(limit), before).jobs && j in Exec(Exec(Init(limit), before), steps).jobs
    ensures var s := Exec(Init(limit), before); var s' := Exec(s, steps);
            Ascending(s.jobs[j].events) && Ascending(s'.jobs[j].events) && s.jobs[j].events <= s'.jobs[j].events
  {
    var s := Exec(Init(limit), before);
    assert Reached(s);
    ReachedExec(s, steps);
    ExecGrows(s, steps, j);
    var s' := Exec(s, steps);
    RowOf(s, j);
    RowOf(s', j);
  }

  /** The state after the first n steps of a run. */
  function StateAt(limit: nat, run: seq<Step>, n: nat): System
    requires n <= |run|
  {
    Exec(Init(limit), run[..n])
  }

  /** The moments at which the polls of a stream read events and status. */
  predicate Readings(run: seq<Step>, moments: seq<(nat, nat)>) {
    && (forall i :: 0 <= i < |moments| ==> moments[i].0 <= moments[i].1 <= |run|)
    && (forall i :: 0 <= i < |moments| - 1 ==> moments[i].1 <= moments[i + 1].0)
  }

  function PollsOf(limit: nat, run: seq<Step>, moments: seq<(nat, nat)>, j: JobId): seq<Poll>
    requires Readings(run, moments)
  {
    seq(|moments|, i requires 0 <= i < |moments| => SplitSnapshot(StateAt(limit, run, moments[i].0), StateAt(limit, run, moments[i].1), j))
  }

  /** Whatever the application does meanwhile, and whenever the polls read, they are chained: so the guarantee of
      the stream applies to every stream of every run, deletions and sweeps included. */
  lemma PollsAreChained(limit: nat, run: seq<Step>, moments: seq<(nat, nat)>, j: JobId)
    requires Readings(run, moments)
    ensures Chained(PollsOf(limit, run, moments, j))
  {
    var polls := PollsOf(limit, run, moments, j);
    forall i | 0 <= i < |polls| ensures Ascending(polls[i].events) { AscendingAt(limit, run, moments[i].0, j); }
    forall i | 0 <= i < |polls| - 1 && !Ends(polls[i]) ensures Extends(polls[i], polls[i + 1]) {
      assert moments[i].1 <= moments[i + 1].0;
      ExtendsLater(limit, run, moments[i].0, moments[i].1, moments[i + 1].0, moments[i + 1].1, j);
    }
  }

  lemma AscendingAt(limit: nat, run: seq<Step>, n: nat, j: JobId)
    requires n <= |run|
    ensures Ascending(Snapshot(StateAt(limit, run, n), j).events)
  {
    var s := StateAt(limit, run, n);
    Reachable(limit, run[..n]);
    if j in s.jobs { assert JobOk(s.limit, s.phase, s.jobs[j], StageOf(s, j)); }
  }

  lemma ExtendsLater(limit: nat, run: seq<Step>, a: nat, b: nat, c: nat, d: nat, j: JobId)
    requires a <= b <= c <= d <= |run|
    requires !Ends(SplitSnapshot(StateAt(limit, run, a), StateAt(limit, run, b), j))
    ensures Extends(SplitSnapshot(StateAt(limit, run, a), StateAt(limit, run, b), j),
                    SplitSnapshot(StateAt(limit, run, c), StateAt(limit, run, d), j))
  {
    var s := StateAt(limit, run, b);
    assert j in s.jobs;
    if j !in StateAt(limit, run, c).jobs {
      IdIsUsed(limit, run, b, j);
      UsedStaysUsed(limit, run, b, c, j);
      ExecSplit(Init(limit), run, c, d);
      GoneStaysGone(StateAt(limit, run, c), run[c..d], j);
    } else if j in StateAt(limit, run, a).jobs {
      ExecSplit(Init(limit), run, a, c);
      LogsGrow(limit, run[..a], run[a..c], j);
    }
  }

  lemma IdIsUsed(limit: nat, run: seq<Step>, n: nat, j: JobId)
    requires n <= |run| && j in StateAt(limit, run, n).jobs
    ensures j in StateAt(limit, run, n).used
  {
    Reachable(limit, run[..n]);
  }

  lemma {:induction false} UsedStaysUsed(limit: nat, run: seq<Step>, a: nat, b: nat, j: JobId)
    requires a <= b <= |run| && j in StateAt(limit, run, a).used
    ensures j in StateAt(limit, run, b).used
    decreases b - a
  {
    if a < b {
      assert run[..a + 1] == run[..a] + [run[a]];
      ExecAppend(Init(limit), run[..a], run[a]);
      UsedStaysUsed(limit, run, a + 1, b, j);
    }
  }

  /** When both reads of the last poll come from one state, a stream that ends on a terminal status has
      covered the job_finished event of exactly that status. */
  lemma EndCoversJobFinished(limit: nat, steps: seq<Step>, j: JobId, seen: int)
    requires j in Exec(Init(limit), steps).jobs && Exec(Init(limit), steps).jobs[j].status.Terminal()
    requires forall i :: 0 <= i < |Exec(Init(limit), steps).jobs[j].events| ==>
               Exec(Init(limit), steps).jobs[j].events[i].id <= seen
    ensures var job := Exec(Init(limit), steps).jobs[j];
            && Ends(Snapshot(Exec(Init(limit), steps), j))
            && |job.events| > 0
            && job.events[|job.events| - 1].kind == JobFinished(job.status)
            && job.events[|job.events| - 1].id <= seen
  {
    var s := Exec(Init(limit), steps);
    Reachable(limit, steps);
    assert JobOk(s.limit, s.phase, s.jobs[j], StageOf(s, j));
    assert TerminalOk(s.jobs[j]);
  }

  /** With the status read later than the events, an ending stream has covered the closing event of that
      status exactly when nothing was logged between the two reads. */
  lemma SplitReadsCover(limit: nat, before: seq<Step>, steps: seq<Step>, j: JobId)
    requires j in Exec(Init(limit), before).jobs && j in Exec(Exec(Init(limit), before), steps).jobs
    requires Exec(Exec(Init(limit), before), steps).jobs[j].status.Terminal()
    ensures var s := Exec(Init(limit), before); var s' := Exec(s, steps);
            && Ends(SplitSnapshot(s, s', j))
            && s'.jobs[j].events != []
            && s'.jobs[j].events[|s'.jobs[j].events| - 1].kind == JobFinished(s'.jobs[j].status)
            && (s'.jobs[j].events[|s'.jobs[j].events| - 1] in SplitSnapshot(s, s', j).events
                <==> s'.jobs[j].events == s.jobs[j].events)
  {
    var s := Exec(Init(limit), before);
    var s' := Exec(s, steps);
    LogsGrow(limit, before, steps, j);
    assert Reached(s);
    ReachedExec(s, steps);
    RowOf(s', j);
    assert TerminalOk(s'.jobs[j]);
  }

  /** And it can miss it: the events are read, the dispatch finalizes, the status is read. */
  lemma SplitReadsCanMiss() returns (before: seq<Step>, step: Step)
    ensures var s := Exec(Init(1), before); var s' := Next(s, step);
            && Ends(SplitSnapshot(s, s', "j"))
            && forall i :: 0 <= i < |SplitSnapshot(s, s', "j").events| ==>
                 !SplitSnapshot(s, s', "j").events[i].kind.JobFinished?
  {
    var job;
    before, job := OneCollectorRuns();
    IdsAscend(1, before, "j");
    step := Advance(0, Finalize(0, NextId(job)));
  }
}
