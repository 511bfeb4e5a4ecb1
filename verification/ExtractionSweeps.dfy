/** Which rows a sweep takes, said in terms of the steps of the run and the clock. */
module ExtractionSweeps {
  import opened Prelude
  import opened ExtractionJobs
  import opened ExtractionRuns

  predicate PendingIn(s: State, j: JobId) { j in s.db.jobs && s.db.jobs[j].status == Pending }
  predicate RunningIn(s: State, j: JobId) { j in s.db.jobs && s.db.jobs[j].status == Running }

  /** When the run inserted the row. */
  function InsertedAt(s: State, steps: seq<Step>, j: JobId, since: Option<Time>): Option<Time>
    requires Runs(s, steps)
    decreases |steps|
  {
    if steps == [] then since
    else
      var s1 := Next(s, steps[0]);
      InsertedAt(s1, steps[1..], j, if j !in s.db.jobs && j in s1.db.jobs then Some(s.now) else since)
  }

  /** When the run last made the row running. */
  function StartedAt(s: State, steps: seq<Step>, j: JobId, since: Option<Time>): Option<Time>
    requires Runs(s, steps)
    decreases |steps|
  {
    if steps == [] then since
    else
      var s1 := Next(s, steps[0]);
      StartedAt(s1, steps[1..], j, if !RunningIn(s, j) && RunningIn(s1, j) then Some(s.now) else since)
  }

  ghost predicate Stamped(s: State, j: JobId, inserted: Option<Time>, started: Option<Time>) {
    j in s.db.jobs ==>
      && inserted == Some(s.db.jobs[j].createdAt)
      && (RunningIn(s, j) ==> started == Some(s.db.jobs[j].startedAt))
  }

  /** How a step changes the columns of a row that is there: it is stamped when it becomes running, and never becomes
      pending again. */
  predicate Restamped(o: Job, n: Job, now: Time) {
    && n.createdAt == o.createdAt && (n.status == Pending ==> o.status == Pending)
    && (n.status == Running ==> n.startedAt == if o.status == Running then o.startedAt else now)
  }

  lemma LoadRestamps(s: State, step: Step, j: JobId)
    requires Enabled(s, step) && step.Load? && j in s.db.jobs
    ensures j in DbAfter(s, step).jobs && Restamped(s.db.jobs[j], DbAfter(s, step).jobs[j], s.now)
  {
  }

  lemma WorkerRestamps(s: State, step: Step, j: JobId)
    requires Enabled(s, step) && WorkerMoves(step) && !step.Load? && j in s.db.jobs
    ensures j in DbAfter(s, step).jobs && Restamped(s.db.jobs[j], DbAfter(s, step).jobs[j], s.now)
  {
  }

  lemma OtherRestamps(s: State, step: Step, j: JobId)
    requires Enabled(s, step) && !WorkerMoves(step) && j in s.db.jobs
    ensures j in DbAfter(s, step).jobs && Restamped(s.db.jobs[j], DbAfter(s, step).jobs[j], s.now)
  {
  }

  /** The columns change exactly when the row is inserted and when it becomes running. */
  lemma NextStamps(s: State, step: Step, j: JobId)
    requires Enabled(s, step) && j in Next(s, step).db.jobs
    ensures var row := Next(s, step).db.jobs[j];
      if j in s.db.jobs then Restamped(s.db.jobs[j], row, s.now) else row.createdAt == s.now && row.status == Pending
  {
    assert Next(s, step).db == DbAfter(s, step);
    if j !in s.db.jobs {
      NewRowIsPending(s, step, j);
    } else if step.Load? {
      LoadRestamps(s, step, j);
    } else if WorkerMoves(step) {
      WorkerRestamps(s, step, j);
    } else {
      OtherRestamps(s, step, j);
    }
  }

  lemma NewRowIsPending(s: State, step: Step, j: JobId)
    requires Enabled(s, step) && j !in s.db.jobs && j in DbAfter(s, step).jobs
    ensures DbAfter(s, step).jobs[j].createdAt == s.now && DbAfter(s, step).jobs[j].status == Pending
  {
  }

  lemma {:induction false} RunsStamp(s: State, steps: seq<Step>, j: JobId, inserted: Option<Time>, started: Option<Time>)
    requires Safe(s) && Runs(s, steps) && Stamped(s, j, inserted, started)
    ensures Stamped(After(s, steps), j, InsertedAt(s, steps, j, inserted), StartedAt(s, steps, j, started))
    decreases |steps|
  {
    if steps != [] {
      var s1 := Next(s, steps[0]);
      if j in s1.db.jobs {
        NextStamps(s, steps[0], j);
      }
      NextKeepsSafe(s, steps[0]);
      NextKeepsDb(s, steps[0]);
      RunsStamp(s1, steps[1..], j,
                if j !in s.db.jobs && j in s1.db.jobs then Some(s.now) else inserted,
                if !RunningIn(s, j) && RunningIn(s1, j) then Some(s.now) else started);
    }
  }

  /** The row is failed with this code, and one more refund is owed for it. */
  ghost predicate TakenAs(s: State, t: State, j: JobId, code: string)
    requires j in s.db.jobs
  {
    var row := (j, s.db.jobs[j].periodStart);
    && j in t.db.jobs && t.db.jobs[j] == s.db.jobs[j].(status := Failed, errorCode := Some(code))
    && t.owed[row] == s.owed[row] + 1
  }

  ghost predicate LeftAlone(s: State, t: State, j: JobId)
    requires j in s.db.jobs
  {
    && j in t.db.jobs && t.db.jobs[j] == s.db.jobs[j]
    && t.owed[(j, s.db.jobs[j].periodStart)] == s.owed[(j, s.db.jobs[j].periodStart)]
  }

  lemma SweepRunningTakes(s: State, j: JobId)
    requires j in s.db.jobs
    ensures if RunningIn(s, j) && s.db.jobs[j].startedAt < s.now - 1200
      then TakenAs(s, Next(s, SweepRunning), j, "worker_lost") else LeftAlone(s, Next(s, SweepRunning), j)
  {
    ReturnedRow(s.db.jobs, StaleRunning(s.now), j);
    SweptRow(s.db.jobs, StaleRunning(s.now), "worker_lost", j);
    assert Next(s, SweepRunning).db.jobs == Swept(s.db.jobs, StaleRunning(s.now), "worker_lost");
    assert Next(s, SweepRunning).owed == s.owed + multiset(Returned(s.db.jobs, StaleRunning(s.now)));
  }

  lemma SweepPendingTakes(s: State, j: JobId, minutes: nat)
    requires j in s.db.jobs
    ensures if PendingIn(s, j) && s.db.jobs[j].createdAt < s.now - 60 * minutes
      then TakenAs(s, Next(s, SweepPending(minutes)), j, "enqueue_lost") else LeftAlone(s, Next(s, SweepPending(minutes)), j)
  {
    ReturnedRow(s.db.jobs, StalePending(s.now, minutes), j);
    SweptRow(s.db.jobs, StalePending(s.now, minutes), "enqueue_lost", j);
    assert Next(s, SweepPending(minutes)).db.jobs == Swept(s.db.jobs, StalePending(s.now, minutes), "enqueue_lost");
    assert Next(s, SweepPending(minutes)).owed == s.owed + multiset(Returned(s.db.jobs, StalePending(s.now, minutes)));
  }

  lemma ReturnedRow(jobs: Jobs, stale: Job -> bool, j: JobId)
    requires j in jobs
    ensures multiset(Returned(jobs, stale))[(j, jobs[j].periodStart)] == if stale(jobs[j]) then 1 else 0
  {
    assert (j, jobs[j].periodStart) in Returned(jobs, stale) <==> stale(jobs[j]);
  }

  lemma SweptRow(jobs: Jobs, stale: Job -> bool, code: string, j: JobId)
    requires j in jobs
    ensures j in Swept(jobs, stale, code)
    ensures Swept(jobs, stale, code)[j] == if stale(jobs[j]) then jobs[j].(status := Failed, errorCode := Some(code)) else jobs[j]
  {
  }

  /** After any run a sweep of running rows takes a row if and only if it is running and the last step that made it
      so was more than twenty minutes ago, however long the row has existed. */
  lemma SweepRunningTakesExactly(now: Time, month: Month, steps: seq<Step>, j: JobId)
    requires Runs(Initial(now, month), steps) && j in After(Initial(now, month), steps).db.jobs
    ensures var s := After(Initial(now, month), steps);
      var started := StartedAt(Initial(now, month), steps, j, None);
      if RunningIn(s, j) && started.Some? && started.value < s.now - 1200
      then TakenAs(s, Next(s, SweepRunning), j, "worker_lost")
      else LeftAlone(s, Next(s, SweepRunning), j)
  {
    RunsStamp(Initial(now, month), steps, j, None, None);
    SweepRunningTakes(After(Initial(now, month), steps), j);
  }

  /** And a sweep of pending rows takes a row if and only if it is pending and was inserted longer ago than the
      threshold. */
  lemma SweepPendingTakesExactly(now: Time, month: Month, steps: seq<Step>, j: JobId, minutes: nat)
    requires Runs(Initial(now, month), steps) && j in After(Initial(now, month), steps).db.jobs
    ensures var s := After(Initial(now, month), steps);
      var inserted := InsertedAt(Initial(now, month), steps, j, None);
      if PendingIn(s, j) && inserted.Some? && inserted.value < s.now - 60 * minutes
      then TakenAs(s, Next(s, SweepPending(minutes)), j, "enqueue_lost")
      else LeftAlone(s, Next(s, SweepPending(minutes)), j)
  {
    RunsStamp(Initial(now, month), steps, j, None, None);
    SweepPendingTakes(After(Initial(now, month), steps), j, minutes);
  }

  /** Once made running at `since`, a row is never pending again, and while it runs it has been made so at or after
      that. */
  ghost predicate Begun(s: State, j: JobId, since: Time) {
    j in s.db.jobs && s.now >= since && !PendingIn(s, j) && (RunningIn(s, j) ==> s.db.jobs[j].startedAt >= since)
  }

  lemma NextBegun(s: State, step: Step, j: JobId, since: Time)
    requires Safe(s) && Enabled(s, step) && Begun(s, j, since)
    ensures Begun(Next(s, step), j, since)
  {
    NextKeepsDb(s, step);
    NextStamps(s, step, j);
  }

  lemma {:induction false} RunsBegun(s: State, steps: seq<Step>, j: JobId, since: Time)
    requires Safe(s) && Runs(s, steps) && Begun(s, j, since)
    ensures Begun(After(s, steps), j, since)
    decreases |steps|
  {
    if steps != [] {
      NextBegun(s, steps[0], j, since);
      NextKeepsSafe(s, steps[0]);
      RunsBegun(Next(s, steps[0]), steps[1..], j, since);
    }
  }

  /** A worker is stopped ten minutes after its start at the latest. Until twice that time has passed since a worker's
      load made the row running, no sweep of either kind takes it, whatever else happens in between. */
  lemma NoSweepHitsATimelyWorker(s: State, w: nat, after: seq<Step>, j: JobId, minutes: nat)
    requires Safe(s) && Enabled(s, Load(w, Loads)) && !RunningIn(s, j) && RunningIn(Next(s, Load(w, Loads)), j)
    requires Runs(Next(s, Load(w, Loads)), after) && After(Next(s, Load(w, Loads)), after).now <= s.now + 1200
    ensures var t := After(Next(s, Load(w, Loads)), after);
      j in t.db.jobs && LeftAlone(t, Next(t, SweepRunning), j) && LeftAlone(t, Next(t, SweepPending(minutes)), j)
  {
    var s1 := Next(s, Load(w, Loads));
    NextKeepsSafe(s, Load(w, Loads));
    NextStamps(s, Load(w, Loads), j);
    RunsBegun(s1, after, j, s.now);
    var t := After(s1, after);
    SweepRunningTakes(t, j);
    SweepPendingTakes(t, j, minutes);
  }
}
