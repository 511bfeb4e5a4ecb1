/** Ingest requests, extraction workers and orphan sweeps over one database and one budget ledger.
    Models the transactions of gubbi/api/v1/ingest.py, gubbi/extraction/jobs/extract_conversation.py and
    gubbi/extraction/orphan_cleanup.py as atomic steps; any actor may die between two of its steps. */
module ExtractionRuns {
  import opened Prelude
  import opened ExtractionJobs

  type User = string

  // ------------------------------------------------------------------
  // The ledger
  // ------------------------------------------------------------------

  /** `pre_charge` books the estimate; `record_actual_cost` books actual minus estimate. */
  datatype Amount = Estimate | Actual(cents: nat)
  datatype Entry = Entry(bucket: Month, amount: Amount)

  /** Per pre-charge, what was booked for it. A job's id is the number drawn at its pre-charge. */
  type Book = map<JobId, seq<Entry>>

  // ------------------------------------------------------------------
  // Actors
  // ------------------------------------------------------------------

  datatype IngestPc =
    | Ready                        // before the next conversation
    | Saved(key: Key)              // TXN 1 committed
    | Charged(key: Key, id: JobId) // pre-charge allowed
    | Refused(id: JobId)           // TXN 2 rolled back, refund due
    | Over

  /** `period` is read once per request. */
  datatype Ingest = Ingest(user: User, period: Month, pc: IngestPc)

  /** `bucket` is `effective_period_start`. In `Failing`, `known` is `_period_start_known` and `loaded` says that
      Phase 1 had completed, so that `effective_period_start` had been taken from the row. */
  datatype WorkerPc =
    | Started
    | Loaded(bucket: Month)                       // Phase 1 committed
    | Untopical(bucket: Month)                    // no usable topic
    | Extracted(bucket: Month, cents: nat, topic: Topic)   // Phase 2 done
    | SkipMarked(bucket: Month)                   // no-topic mark committed, refund due
    | Failing(bucket: Month, known: bool, loaded: bool)
    | Refunded                                    // refund handled, failure mark due
    | Gone

  datatype Worker = Worker(job: JobId, conv: ConvId, startMonth: Month, pc: WorkerPc)

  /** `owed` holds the swept rows whose refund call is still to come; `skippedRefunds` the jobs whose latest failure
      skipped its refund because the period was not known. */
  datatype State = State(db: Db, book: Book, ingests: seq<Ingest>, workers: seq<Worker>,
                         owed: multiset<(JobId, Month)>, skippedRefunds: set<JobId>, now: Time, month: Month)

  function Initial(now: Time, month: Month): State { State(EMPTY, map[], [], [], multiset{}, {}, now, month) }

  datatype LoadOutcome = EarlyError | LateError | Loads
  datatype LlmOutcome = LlmError | NoTopic | OnTopic(topic: Topic, cents: nat)

  /** Phase 3: an error before the budget call; or the budget call, which may fail, then the commit, which may fail. */
  datatype PersistOutcome = PersistError | Persists(entries: nat, paid: bool, commits: bool)

  datatype Step =
    | BeginIngest(user: User)
    | Save(ingest: nat, conv: ConvId, source: string)
    | PreCharge(ingest: nat, id: JobId, allowed: bool)
    | Insert(ingest: nat, fails: bool)
    | RefundIngest(ingest: nat, ok: bool)
    | EndIngest(ingest: nat)
    | Start(job: JobId)
    | Load(worker: nat, load: LoadOutcome)
    | CallLlm(worker: nat, llm: LlmOutcome)
    | MarkSkipped(worker: nat, ok: bool)
    | SettleSkipped(worker: nat, ok: bool)
    | Phase3(worker: nat, persist: PersistOutcome)
    | RefundFailure(worker: nat, ok: bool)
    | MarkFailure(worker: nat, code: string, ok: bool)
    | Die(worker: nat)
    | SweepPending(minutes: nat)
    | SweepRunning
    | RefundSwept(job: JobId, period: Month, ok: bool)
    | SweeperDies(job: JobId, period: Month)
    | Tick(now: Time, month: Month)

  predicate Enabled(s: State, step: Step) {
    match step
    case BeginIngest(_) => true
    case Save(i, _, _) => i < |s.ingests| && s.ingests[i].pc.Ready?
    case PreCharge(i, id, _) => i < |s.ingests| && s.ingests[i].pc.Saved? && id !in s.book && id !in s.db.jobs
    case Insert(i, _) => i < |s.ingests| && s.ingests[i].pc.Charged? && s.ingests[i].pc.id !in s.db.jobs
    case RefundIngest(i, _) => i < |s.ingests| && s.ingests[i].pc.Refused?
    case EndIngest(i) => i < |s.ingests|
    case Start(j) => j in s.db.jobs
    case Load(w, _) => w < |s.workers| && s.workers[w].pc.Started?
    case CallLlm(w, _) => w < |s.workers| && s.workers[w].pc.Loaded?
    case MarkSkipped(w, _) => w < |s.workers| && s.workers[w].pc.Untopical?
    case SettleSkipped(w, _) => w < |s.workers| && s.workers[w].pc.SkipMarked?
    case Phase3(w, _) => w < |s.workers| && s.workers[w].pc.Extracted?
    case RefundFailure(w, _) => w < |s.workers| && s.workers[w].pc.Failing?
    case MarkFailure(w, _, _) => w < |s.workers| && s.workers[w].pc.Refunded?
    case Die(w) => w < |s.workers| && s.workers[w].pc != Gone
    case SweepPending(_) => true
    case SweepRunning => true
    case RefundSwept(j, m, _) => (j, m) in s.owed
    case SweeperDies(j, m) => (j, m) in s.owed
    case Tick(now, month) => now >= s.now && month >= s.month
  }

  predicate IngestMoves(step: Step) {
    step.Save? || step.PreCharge? || step.Insert? || step.RefundIngest? || step.EndIngest?
  }

  predicate WorkerMoves(step: Step) {
    || step.Load? || step.CallLlm? || step.MarkSkipped? || step.SettleSkipped? || step.Phase3?
    || step.RefundFailure? || step.MarkFailure? || step.Die?
  }

  function PeriodStart(jobs: Jobs, id: JobId): Option<Month> {
    if id in jobs then Some(jobs[id].periodStart) else None
  }

  /** TXN 2 fails, or the row it inserts conflicts with an active one: the recovery read that follows the unique
      violation runs in the transaction that violation has aborted, so it fails too. */
  predicate InsertLost(s: State, step: Step)
    requires Enabled(s, step) && step.Insert?
  {
    var g := s.ingests[step.ingest];
    step.fails || Conflicts(s.db.jobs, g.pc.id, g.pc.key)
  }

  /** Where an ingest request goes. */
  function IngestPcAfter(s: State, step: Step): IngestPc
    requires Enabled(s, step) && IngestMoves(step)
  {
    match step
    case Save(i, conv, source) => Saved(Key(s.ingests[i].user, conv, source))
    case PreCharge(i, id, allowed) => if allowed then Charged(s.ingests[i].pc.key, id) else Ready
    case Insert(i, _) => if InsertLost(s, step) then Refused(s.ingests[i].pc.id) else Ready
    case RefundIngest(_, _) => Ready
    case EndIngest(_) => Over
  }

  /** Where a worker goes. Phase 1 and Phase 3 are one transaction each; both leave at once when the
      conversation is already processed. */
  function WorkerPcAfter(s: State, step: Step): WorkerPc
    requires Enabled(s, step) && WorkerMoves(step)
  {
    var w := s.workers[step.worker];
    match step
    case Load(_, load) =>
      var period := PeriodStart(s.db.jobs, w.job);
      if load.EarlyError? then Failing(w.startMonth, false, false)
      else if w.conv in s.db.processed then Gone
      else if MarkRunning(s.db.jobs, w.job, s.now).None? then Failing(w.startMonth, false, false)
      else if load.LateError? then Failing(w.startMonth, period.Some?, false)
      else Loaded(if period.Some? then period.value else w.startMonth)
    case CallLlm(_, LlmError) => Failing(w.pc.bucket, true, true)
    case CallLlm(_, NoTopic) => Untopical(w.pc.bucket)
    case CallLlm(_, OnTopic(topic, cents)) => Extracted(w.pc.bucket, cents, topic)
    case MarkSkipped(_, ok) => if ok then SkipMarked(w.pc.bucket) else Failing(w.pc.bucket, true, true)
    case SettleSkipped(_, _) => Gone
    case Phase3(_, persist) =>
      if w.conv in s.db.processed || (persist.Persists? && persist.commits) then Gone else Failing(w.pc.bucket, true, true)
    case RefundFailure(_, _) => Refunded
    case MarkFailure(_, _, _) => Gone
    case Die(_) => Gone
  }

  /** What a step commits. An error in Phase 1 rolls `mark_running` back. */
  function DbAfter(s: State, step: Step): Db
    requires Enabled(s, step)
  {
    match step
    case Insert(i, false) =>
      var g := s.ingests[i];
      var inserted := InsertPending(s.db.jobs, g.pc.id, g.pc.key, g.period, s.now);
      if inserted.None? then s.db else s.db.(jobs := inserted.value)
    case Load(w, Loads) =>
      var marked := MarkRunning(s.db.jobs, s.workers[w].job, s.now);
      if s.workers[w].conv in s.db.processed || marked.None? then s.db else s.db.(jobs := marked.value)
    case MarkSkipped(w, true) => SkipNoTopic(s.db, s.workers[w].job, s.workers[w].conv)
    case Phase3(w, Persists(entries, _, true)) =>
      if s.workers[w].conv in s.db.processed then s.db
      else Persist(s.db, s.workers[w].job, s.workers[w].conv, s.workers[w].pc.topic, entries, s.workers[w].pc.cents)
    case MarkFailure(w, code, true) => RecordFailure(s.db, s.workers[w].job, code)
    case SweepPending(minutes) => s.db.(jobs := Swept(s.db.jobs, StalePending(s.now, minutes), "enqueue_lost"))
    case SweepRunning => s.db.(jobs := Swept(s.db.jobs, StaleRunning(s.now), "worker_lost"))
    case _ => s.db
  }

  /** The entry a step books, if any, and for which pre-charge. Phase 3 books before it commits, so also when
      the commit fails; a failing worker books only if it knows the period. */
  function Posting(s: State, step: Step): Option<(JobId, Entry)>
    requires Enabled(s, step)
  {
    match step
    case PreCharge(i, id, true) => Some((id, Entry(s.ingests[i].period, Estimate)))
    case RefundIngest(i, true) => Some((s.ingests[i].pc.id, Entry(s.ingests[i].period, Actual(0))))
    case SettleSkipped(w, true) => Some((s.workers[w].job, Entry(s.workers[w].pc.bucket, Actual(0))))
    case Phase3(w, Persists(_, true, _)) =>
      if s.workers[w].conv in s.db.processed then None
      else Some((s.workers[w].job, Entry(s.workers[w].pc.bucket, Actual(s.workers[w].pc.cents))))
    case RefundFailure(w, true) =>
      if s.workers[w].pc.known then Some((s.workers[w].job, Entry(s.workers[w].pc.bucket, Actual(0)))) else None
    case RefundSwept(j, m, true) => Some((j, Entry(m, Actual(0))))
    case _ => None
  }

  function OwedAfter(s: State, step: Step): multiset<(JobId, Month)>
    requires Enabled(s, step)
  {
    match step
    case SweepPending(minutes) => s.owed + multiset(Returned(s.db.jobs, StalePending(s.now, minutes)))
    case SweepRunning => s.owed + multiset(Returned(s.db.jobs, StaleRunning(s.now)))
    case RefundSwept(j, m, _) => s.owed - multiset{(j, m)}
    case SweeperDies(j, m) => s.owed - multiset{(j, m)}
    case _ => s.owed
  }

  /** A failing worker that does not know the period skips its refund; any later failure starts afresh. */
  function SkippedAfter(s: State, step: Step): set<JobId>
    requires Enabled(s, step)
  {
    match step
    case RefundFailure(w, _) =>
      if s.workers[w].pc.known then s.skippedRefunds - {s.workers[w].job} else s.skippedRefunds + {s.workers[w].job}
    case SweepPending(minutes) => s.skippedRefunds - SweptIds(s.db.jobs, StalePending(s.now, minutes))
    case SweepRunning => s.skippedRefunds - SweptIds(s.db.jobs, StaleRunning(s.now))
    case _ => s.skippedRefunds
  }

  function SweptIds(jobs: Jobs, stale: Job -> bool): set<JobId> { set j | j in jobs && stale(jobs[j]) }

  function Posted(book: Book, posting: Option<(JobId, Entry)>): Book {
    if posting.None? then book
    else var (id, e) := posting.value; book[id := (if id in book then book[id] else []) + [e]]
  }

  function Next(s: State, step: Step): State
    requires Enabled(s, step)
  {
    State(
      DbAfter(s, step),
      Posted(s.book, Posting(s, step)),
      if step.BeginIngest? then s.ingests + [Ingest(step.user, s.month, Ready)]
      else if IngestMoves(step) then s.ingests[step.ingest := s.ingests[step.ingest].(pc := IngestPcAfter(s, step))]
      else s.ingests,
      if step.Start? then s.workers + [Worker(step.job, s.db.jobs[step.job].key.conv, s.month, Started)]
      else if WorkerMoves(step) then s.workers[step.worker := s.workers[step.worker].(pc := WorkerPcAfter(s, step))]
      else s.workers,
      OwedAfter(s, step),
      SkippedAfter(s, step),
      if step.Tick? then step.now else s.now,
      if step.Tick? then step.month else s.month)
  }

  predicate Runs(s: State, steps: seq<Step>)
    decreases |steps|
  {
    steps == [] || (Enabled(s, steps[0]) && Runs(Next(s, steps[0]), steps[1..]))
  }

  function After(s: State, steps: seq<Step>): State
    requires Runs(s, steps)
    decreases |steps|
  {
    if steps == [] then s else After(Next(s, steps[0]), steps[1..])
  }

  lemma RunsCons(s: State, step: Step, rest: seq<Step>)
    ensures Runs(s, [step] + rest) <==> Enabled(s, step) && Runs(Next(s, step), rest)
    ensures Runs(s, [step] + rest) ==> After(s, [step] + rest) == After(Next(s, step), rest)
  {
    assert ([step] + rest)[1..] == rest;
  }

  lemma RunsOnly(s: State, step: Step)
    requires Enabled(s, step)
    ensures Runs(s, [step]) && After(s, [step]) == Next(s, step)
  {
    RunsCons(s, step, []);
    assert [step] + [] == [step];
  }

  /** One run after another is a run. */
  lemma {:induction false} RunsAppend(s: State, before: seq<Step>, after: seq<Step>)
    ensures Runs(s, before + after) <==> Runs(s, before) && Runs(After(s, before), after)
    ensures Runs(s, before + after) ==> After(s, before + after) == After(After(s, before), after)
    decreases |before|
  {
    if before == [] {
      NothingBefore(s, before, after);
    } else {
      var step, rest := before[0], before[1..];
      assert before == [step] + rest && before + after == [step] + (rest + after);
      RunsCons(s, step, rest);
      RunsCons(s, step, rest + after);
      if Enabled(s, step) {
        RunsAppend(Next(s, step), rest, after);
      }
    }
  }

  lemma NothingBefore(s: State, before: seq<Step>, after: seq<Step>)
    requires before == []
    ensures Runs(s, before + after) <==> Runs(s, before) && Runs(After(s, before), after)
    ensures Runs(s, before + after) ==> After(s, before + after) == After(After(s, before), after)
  {
    assert before + after == after;
  }

  lemma RunsJoin(s: State, before: seq<Step>, after: seq<Step>)
    requires Runs(s, before) && Runs(After(s, before), after)
    ensures Runs(s, before + after) && After(s, before + after) == After(After(s, before), after)
  {
    RunsAppend(s, before, after);
  }

  // ------------------------------------------------------------------
  // At most one extraction, one active job, one audit row
  // ------------------------------------------------------------------

  /** A worker carries the conversation of its own job. */
  predicate Placed(s: State, w: nat)
    requires w < |s.workers|
  {
    s.workers[w].job in s.db.jobs && s.db.jobs[s.workers[w].job].key.conv == s.workers[w].conv
  }

  ghost predicate Safe(s: State) { Sound(s.db) && forall w :: 0 <= w < |s.workers| ==> Placed(s, w) }

  lemma LoadKeepsDb(s: State, step: Step)
    requires Sound(s.db) && Enabled(s, step) && step.Load?
    ensures Sound(DbAfter(s, step))
    ensures RowsEvolve(s.db.jobs, DbAfter(s, step).jobs)
  {
    var w := s.workers[step.worker];
    if step.load.Loads? && w.conv !in s.db.processed && MarkRunning(s.db.jobs, w.job, s.now).Some? {
      MarkRunningKeepsSound(s.db, w.job, s.now);
    } else {
      assert DbAfter(s, step) == s.db;
    }
  }

  lemma Phase3KeepsDb(s: State, step: Step)
    requires Sound(s.db) && Enabled(s, step) && step.Phase3? && Placed(s, step.worker)
    ensures Sound(DbAfter(s, step))
    ensures RowsEvolve(s.db.jobs, DbAfter(s, step).jobs)
  {
    var w := s.workers[step.worker];
    if w.conv !in s.db.processed && step.persist.Persists? && step.persist.commits {
      PersistKeepsSound(s.db, w.job, w.conv, w.pc.topic, step.persist.entries, w.pc.cents);
    } else {
      assert DbAfter(s, step) == s.db;
    }
  }

  lemma WorkerKeepsDb(s: State, step: Step)
    requires Sound(s.db) && Enabled(s, step) && WorkerMoves(step) && Placed(s, step.worker)
    ensures Sound(DbAfter(s, step))
    ensures RowsEvolve(s.db.jobs, DbAfter(s, step).jobs)
  {
    var w := s.workers[step.worker];
    if step.Load? {
      LoadKeepsDb(s, step);
    } else if step.MarkSkipped? && step.ok {
      SkipKeepsSound(s.db, w.job, w.conv);
    } else if step.Phase3? {
      Phase3KeepsDb(s, step);
    } else if step.MarkFailure? && step.ok {
      FailureKeepsSound(s.db, w.job, step.code);
    } else {
      assert DbAfter(s, step) == s.db;
    }
  }

  lemma NextKeepsDb(s: State, step: Step)
    requires Safe(s) && Enabled(s, step)
    ensures Sound(DbAfter(s, step))
    ensures RowsEvolve(s.db.jobs, DbAfter(s, step).jobs)
  {
    if step.Insert? {
      var g := s.ingests[step.ingest];
      if InsertPending(s.db.jobs, g.pc.id, g.pc.key, g.period, s.now).Some? {
        InsertKeepsSound(s.db, g.pc.id, g.pc.key, g.period, s.now);
      }
    } else if WorkerMoves(step) {
      WorkerKeepsDb(s, step);
    } else if step.SweepPending? {
      SweepKeepsSound(s.db, StalePending(s.now, step.minutes), "enqueue_lost");
    } else if step.SweepRunning? {
      SweepKeepsSound(s.db, StaleRunning(s.now), "worker_lost");
    } else {
      assert DbAfter(s, step) == s.db;
    }
  }

  /** Workers are only ever added, and keep what they were started with. */
  lemma NextKeepsWorkers(s: State, step: Step, w: nat)
    requires Enabled(s, step) && w < |Next(s, step).workers|
    ensures var worker := Next(s, step).workers[w];
      if w < |s.workers| then worker.job == s.workers[w].job && worker.conv == s.workers[w].conv
      else step.Start? && worker.job == step.job && worker.conv == s.db.jobs[step.job].key.conv
  {
  }

  lemma NextPlaces(s: State, step: Step, w: nat)
    requires Enabled(s, step) && w < |Next(s, step).workers|
    requires RowsEvolve(s.db.jobs, DbAfter(s, step).jobs)
    requires w < |s.workers| ==> Placed(s, w)
    ensures Placed(Next(s, step), w)
  {
    NextKeepsWorkers(s, step, w);
    assert Next(s, step).db.jobs == DbAfter(s, step).jobs;
  }

  lemma NextKeepsSafe(s: State, step: Step)
    requires Safe(s) && Enabled(s, step)
    ensures Safe(Next(s, step))
  {
    NextKeepsDb(s, step);
    var s1 := Next(s, step);
    assert s1.db == DbAfter(s, step);
    forall w | 0 <= w < |s1.workers| ensures Placed(s1, w) {
      NextPlaces(s, step, w);
    }
  }

  lemma {:induction false} RunsKeepSafe(s: State, steps: seq<Step>)
    requires Safe(s) && Runs(s, steps)
    ensures Safe(After(s, steps))
    decreases |steps|
  {
    if steps != [] {
      NextKeepsSafe(s, steps[0]);
      RunsKeepSafe(Next(s, steps[0]), steps[1..]);
    }
  }

  /** However requests, workers, crashes and sweeps interleave, a conversation gets at most one batch of
      extracted entries, and the conversation of a completed job is marked processed. */
  lemma ExtractedAtMostOnce(now: Time, month: Month, steps: seq<Step>)
    requires Runs(Initial(now, month), steps)
    ensures var db := After(Initial(now, month), steps).db;
      && (forall c :: db.batches[c] <= 1)
      && (forall c :: c in db.batches ==> c in db.processed)
      && (forall j :: j in db.jobs && db.jobs[j].status == Completed ==> db.jobs[j].key.conv in db.processed)
  {
    RunsKeepSafe(Initial(now, month), steps);
  }

  lemma OneActiveJobPerKey(now: Time, month: Month, steps: seq<Step>)
    requires Runs(Initial(now, month), steps)
    ensures ActiveUnique(After(Initial(now, month), steps).db.jobs)
  {
    RunsKeepSafe(Initial(now, month), steps);
  }

  lemma AuditedExactlyWhenCompleted(now: Time, month: Month, steps: seq<Step>, j: JobId)
    requires Runs(Initial(now, month), steps)
    ensures var db := After(Initial(now, month), steps).db;
      db.completed[j] == if j in db.jobs && db.jobs[j].status == Completed then 1 else 0
  {
    RunsKeepSafe(Initial(now, month), steps);
  }

  /** `completed` is never left, and the counters written with it never change. */
  lemma {:induction false} CompletedForEver(s: State, steps: seq<Step>, j: JobId)
    requires Safe(s) && Runs(s, steps)
    requires j in s.db.jobs && s.db.jobs[j].status == Completed
    ensures var db := After(s, steps).db; j in db.jobs && db.jobs[j] == s.db.jobs[j]
    decreases |steps|
  {
    if steps != [] {
      NextKeepsDb(s, steps[0]);
      NextKeepsSafe(s, steps[0]);
      CompletedForEver(Next(s, steps[0]), steps[1..], j);
    }
  }

  // ------------------------------------------------------------------
  // Failures
  // ------------------------------------------------------------------

  ghost predicate CodesTell(jobs: Jobs) { forall j :: j in jobs ==> (jobs[j].errorCode.Some? <==> jobs[j].status == Failed) }

  lemma SweptTells(jobs: Jobs, stale: Job -> bool, code: string)
    requires CodesTell(jobs)
    ensures CodesTell(Swept(jobs, stale, code))
  {
  }

  lemma NextTells(s: State, step: Step)
    requires CodesTell(s.db.jobs) && Enabled(s, step)
    ensures CodesTell(DbAfter(s, step).jobs)
  {
    if step.SweepPending? {
      SweptTells(s.db.jobs, StalePending(s.now, step.minutes), "enqueue_lost");
    } else if step.SweepRunning? {
      SweptTells(s.db.jobs, StaleRunning(s.now), "worker_lost");
    }
  }

  /** This step fails the row of `j` and commits. */
  predicate FailsJob(s: State, step: Step, j: JobId)
    requires Enabled(s, step)
  {
    && step.MarkFailure? && step.ok && s.workers[step.worker].job == j
    && j in s.db.jobs && (s.db.jobs[j].status == Pending || s.db.jobs[j].status == Running)
  }

  function TimesFailed(s: State, steps: seq<Step>, j: JobId): nat
    requires Runs(s, steps)
    decreases |steps|
  {
    if steps == [] then 0 else (if FailsJob(s, steps[0], j) then 1 else 0) + TimesFailed(Next(s, steps[0]), steps[1..], j)
  }

  lemma NextAudits(s: State, step: Step, j: JobId)
    requires Enabled(s, step)
    ensures DbAfter(s, step).failed[j] == s.db.failed[j] + if FailsJob(s, step, j) then 1 else 0
  {
  }

  lemma {:induction false} RunsTell(s: State, steps: seq<Step>, j: JobId)
    requires CodesTell(s.db.jobs) && Runs(s, steps)
    ensures CodesTell(After(s, steps).db.jobs)
    ensures After(s, steps).db.failed[j] == s.db.failed[j] + TimesFailed(s, steps, j)
    decreases |steps|
  {
    if steps != [] {
      NextTells(s, steps[0]);
      NextAudits(s, steps[0], j);
      assert Next(s, steps[0]).db == DbAfter(s, steps[0]);
      RunsTell(Next(s, steps[0]), steps[1..], j);
    }
  }

  /** After every run a row carries an error code exactly when it has failed, and `failed` audit rows count the times a
      worker's failure path failed an active row; sweeps write none. */
  lemma FailuresToldExactly(now: Time, month: Month, steps: seq<Step>, j: JobId)
    requires Runs(Initial(now, month), steps)
    ensures var db := After(Initial(now, month), steps).db;
      && (j in db.jobs ==> (db.jobs[j].errorCode.Some? <==> db.jobs[j].status == Failed))
      && db.failed[j] == TimesFailed(Initial(now, month), steps, j)
  {
    RunsTell(Initial(now, month), steps, j);
  }
}
