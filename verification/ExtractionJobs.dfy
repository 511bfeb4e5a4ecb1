/** The `extraction_jobs` table and the transactions that touch it.
    Models gubbi/storage/repositories/extraction_jobs.py, the persistence helpers of
    gubbi/extraction/jobs/extract_conversation.py, the sweep updates of
    gubbi/extraction/orphan_cleanup.py and `mark_processed` of the conversation repository. */
module ExtractionJobs {
  import opened Prelude

  type JobId = nat
  type ConvId = nat
  type Month = int     // a billing period, named by its number
  type Time = int      // seconds

  /** What the partial unique index ranges over. */
  datatype Key = Key(user: string, conv: ConvId, source: string)

  datatype Status = Pending | Running | Completed | Failed

  datatype Job = Job(key: Key, status: Status, periodStart: Month, createdAt: Time, startedAt: Time,
                     topicsCreated: nat, entriesCreated: nat, centsSpent: nat, errorCode: Option<string>)

  type Jobs = map<JobId, Job>

  /** A topic path of one user. */
  datatype Topic = Topic(user: string, path: string)

  /** `batches` counts, per conversation, the committed batches of extracted entries, `extracted` the audit rows
      that announce them; `completed` and `failed` count the two kinds of terminal audit rows per job. */
  datatype Db = Db(jobs: Jobs, processed: set<ConvId>, topics: set<Topic>, batches: multiset<ConvId>,
                   extracted: multiset<ConvId>, completed: multiset<JobId>, failed: multiset<JobId>)

  const EMPTY := Db(map[], {}, {}, multiset{}, multiset{}, multiset{}, multiset{})

  const ARQ_JOB_TIMEOUT_SECS: Time := 600
  const RUNNING_THRESHOLD_SECS: Time := 2 * ARQ_JOB_TIMEOUT_SECS

  predicate Active(j: Job) { j.status != Completed && j.status != Failed }

  /** Another active row holds the key, so the partial unique index refuses to make `id` active. */
  predicate Conflicts(jobs: Jobs, id: JobId, key: Key) {
    exists j :: j in jobs && j != id && Active(jobs[j]) && jobs[j].key == key
  }

  /** The partial unique index. */
  ghost predicate ActiveUnique(jobs: Jobs) {
    forall i, j :: i in jobs && j in jobs && i != j && Active(jobs[i]) && Active(jobs[j]) ==> jobs[i].key != jobs[j].key
  }

  // ------------------------------------------------------------------
  // Single statements
  // ------------------------------------------------------------------

  function NewJob(key: Key, period: Month, now: Time): Job {
    Job(key, Pending, period, now, now, 0, 0, 0, None)
  }

  /** None when the unique index refuses the row. */
  function InsertPending(jobs: Jobs, id: JobId, key: Key, period: Month, now: Time): Option<Jobs> {
    if Conflicts(jobs, id, key) then None else Some(jobs[id := NewJob(key, period, now)])
  }

  /** None when reviving the row would break the unique index. */
  function MarkRunning(jobs: Jobs, id: JobId, now: Time): Option<Jobs> {
    if id !in jobs || (jobs[id].status != Pending && jobs[id].status != Failed) then Some(jobs)
    else if Conflicts(jobs, id, jobs[id].key) then None
    else Some(jobs[id := jobs[id].(status := Running, startedAt := now, errorCode := None)])
  }

  predicate Updatable(jobs: Jobs, id: JobId) { id in jobs && Active(jobs[id]) }

  function MarkCompleted(jobs: Jobs, id: JobId, topics: nat, entries: nat, cents: nat): Jobs {
    if !Updatable(jobs, id) then jobs
    else jobs[id := jobs[id].(status := Completed, topicsCreated := topics, entriesCreated := entries, centsSpent := cents)]
  }

  function MarkFailed(jobs: Jobs, id: JobId, code: string): Jobs {
    if !Updatable(jobs, id) then jobs else jobs[id := jobs[id].(status := Failed, errorCode := Some(code))]
  }

  function Swept(jobs: Jobs, stale: Job -> bool, code: string): Jobs {
    map j | j in jobs :: if stale(jobs[j]) then jobs[j].(status := Failed, errorCode := Some(code)) else jobs[j]
  }

  /** What `RETURNING` hands to the refund loop. */
  function Returned(jobs: Jobs, stale: Job -> bool): set<(JobId, Month)> {
    set j | j in jobs && stale(jobs[j]) :: (j, jobs[j].periodStart)
  }

  function StalePending(now: Time, minutes: nat): Job -> bool {
    (j: Job) => j.status == Pending && j.createdAt < now - minutes * 60
  }

  function StaleRunning(now: Time): Job -> bool {
    (j: Job) => j.status == Running && j.startedAt < now - RUNNING_THRESHOLD_SECS
  }

  // ------------------------------------------------------------------
  // Transactions
  // ------------------------------------------------------------------

  /** Everything `_persist_extraction` commits: the topic where it is missing, the entries, the processed mark, the
      audit row, and the completion of a job that is still active. */
  function Persist(db: Db, id: JobId, conv: ConvId, topic: Topic, entries: nat, cents: nat): Db {
    Db(MarkCompleted(db.jobs, id, if topic in db.topics then 0 else 1, entries, cents),
       db.processed + {conv}, db.topics + {topic}, db.batches + multiset{conv}, db.extracted + multiset{conv},
       if Updatable(db.jobs, id) then db.completed + multiset{id} else db.completed, db.failed)
  }

  function SkipNoTopic(db: Db, id: JobId, conv: ConvId): Db {
    db.(jobs := MarkCompleted(db.jobs, id, 0, 0, 0), processed := db.processed + {conv},
        completed := if Updatable(db.jobs, id) then db.completed + multiset{id} else db.completed)
  }

  function RecordFailure(db: Db, id: JobId, code: string): Db {
    db.(jobs := MarkFailed(db.jobs, id, code),
        failed := if Updatable(db.jobs, id) then db.failed + multiset{id} else db.failed)
  }

  // ------------------------------------------------------------------
  // The same, in place
  // ------------------------------------------------------------------

  /** `Aborted` is the error of the recovery read inside a transaction that the failed insert has aborted. */
  datatype Created = Fresh(id: JobId) | AlreadyInFlight(existing: JobId) | Aborted

  class ExtractionStore {
    var jobs: Jobs
    var processed: set<ConvId>
    var topics: set<Topic>
    var batches: multiset<ConvId>
    var extracted: multiset<ConvId>
    var completed: multiset<JobId>
    var failed: multiset<JobId>

    function View(): Db
      reads this
    {
      Db(jobs, processed, topics, batches, extracted, completed, failed)
    }

    constructor ()
      ensures View() == EMPTY
    {
      jobs, processed, topics := map[], {}, {};
      batches, extracted, completed, failed := multiset{}, multiset{}, multiset{}, multiset{};
    }

    /** What a rollback does, and what the steps of others look like from outside. */
    method Restore(db: Db)
      modifies this
      ensures View() == db
    {
      jobs, processed, topics := db.jobs, db.processed, db.topics;
      batches, extracted, completed, failed := db.batches, db.extracted, db.completed, db.failed;
    }

    /** On a conflict nothing changes. Outside a transaction the existing active job is looked up and handed back;
        inside one, as in the ingest request, that read fails. */
    method CreatePending(id: JobId, key: Key, period: Month, now: Time, inTransaction: bool) returns (r: Created)
      requires id !in jobs
      modifies this`jobs
      ensures var inserted := InsertPending(old(jobs), id, key, period, now);
        match r
        case Fresh(i) => i == id && inserted.Some? && jobs == inserted.value
        case AlreadyInFlight(e) =>
          && inserted.None? && !inTransaction && jobs == old(jobs)
          && e in jobs && Active(jobs[e]) && jobs[e].key == key
        case Aborted => inserted.None? && inTransaction && jobs == old(jobs)
      ensures r.AlreadyInFlight? && ActiveUnique(jobs) ==>
        forall j :: j in jobs && Active(jobs[j]) && jobs[j].key == key ==> j == r.existing
    {
      if e :| e in jobs && Active(jobs[e]) && jobs[e].key == key {
        r := if inTransaction then Aborted else AlreadyInFlight(e);
      } else {
        jobs := jobs[id := NewJob(key, period, now)];
        r := Fresh(id);
      }
    }

    /** `ok` is false when the statement raises a unique violation. */
    method MarkJobRunning(id: JobId, now: Time) returns (ok: bool)
      modifies this`jobs
      ensures var marked := MarkRunning(old(jobs), id, now);
        ok == marked.Some? && jobs == if ok then marked.value else old(jobs)
    {
      ok := true;
      if id in jobs && (jobs[id].status == Pending || jobs[id].status == Failed) {
        if e :| e in jobs && e != id && Active(jobs[e]) && jobs[e].key == jobs[id].key {
          ok := false;
        } else {
          jobs := jobs[id := jobs[id].(status := Running, startedAt := now, errorCode := None)];
        }
      }
    }

    method MarkJobCompleted(id: JobId, topics: nat, entries: nat, cents: nat) returns (updated: bool)
      modifies this`jobs
      ensures jobs == MarkCompleted(old(jobs), id, topics, entries, cents)
      ensures updated == Updatable(old(jobs), id)
    {
      updated := false;
      if id in jobs && Active(jobs[id]) {
        jobs := jobs[id := jobs[id].(status := Completed, topicsCreated := topics, entriesCreated := entries, centsSpent := cents)];
        updated := true;
      }
    }

    method MarkJobFailed(id: JobId, code: string) returns (updated: bool)
      modifies this`jobs
      ensures jobs == MarkFailed(old(jobs), id, code)
      ensures updated == Updatable(old(jobs), id)
    {
      updated := false;
      if id in jobs && Active(jobs[id]) {
        jobs := jobs[id := jobs[id].(status := Failed, errorCode := Some(code))];
        updated := true;
      }
    }

    /** Counters of an active row only ever grow. */
    method UpdateProgress(id: JobId, topics: Option<nat>, entries: Option<nat>)
      modifies this`jobs
      ensures jobs.Keys == old(jobs.Keys)
      ensures forall j :: j in jobs && (j != id || !Active(old(jobs)[j])) ==> jobs[j] == old(jobs)[j]
      ensures Updatable(old(jobs), id) ==>
        && jobs[id] == old(jobs)[id].(topicsCreated := jobs[id].topicsCreated, entriesCreated := jobs[id].entriesCreated)
        && jobs[id].topicsCreated >= old(jobs)[id].topicsCreated && jobs[id].entriesCreated >= old(jobs)[id].entriesCreated
        && (topics.Some? ==> jobs[id].topicsCreated >= topics.value)
        && (entries.Some? ==> jobs[id].entriesCreated >= entries.value)
        && (jobs[id].topicsCreated == old(jobs)[id].topicsCreated || topics == Some(jobs[id].topicsCreated))
        && (jobs[id].entriesCreated == old(jobs)[id].entriesCreated || entries == Some(jobs[id].entriesCreated))
    {
      if id in jobs && Active(jobs[id]) {
        var row := jobs[id];
        if topics.Some? && topics.value > row.topicsCreated {
          row := row.(topicsCreated := topics.value);
        }
        if entries.Some? && entries.value > row.entriesCreated {
          row := row.(entriesCreated := entries.value);
        }
        jobs := jobs[id := row];
      }
    }

    method GetPeriodStart(id: JobId) returns (period: Option<Month>)
      ensures period == if id in jobs then Some(jobs[id].periodStart) else None
    {
      period := if id in jobs then Some(jobs[id].periodStart) else None;
    }

    /** The audit row is written only for a real update. */
    method CompleteAndAudit(id: JobId, topics: nat, entries: nat, cents: nat)
      modifies this`jobs, this`completed
      ensures jobs == MarkCompleted(old(jobs), id, topics, entries, cents)
      ensures completed == if Updatable(old(jobs), id) then old(completed) + multiset{id} else old(completed)
    {
      var updated := MarkJobCompleted(id, topics, entries, cents);
      if updated {
        completed := completed + multiset{id};
      }
    }

    method EnsureTopic(topic: Topic) returns (created: bool)
      modifies this`topics
      ensures topics == old(topics) + {topic}
      ensures created <==> topic !in old(topics)
    {
      created := topic !in topics;
      topics := topics + {topic};
    }

    /** The body of `_persist_extraction`. */
    method PersistExtraction(id: JobId, conv: ConvId, topic: Topic, entries: nat, cents: nat)
      modifies this
      ensures View() == Persist(old(View()), id, conv, topic, entries, cents)
      ensures Updatable(old(jobs), id) ==>
        && jobs[id].status == Completed && jobs[id].topicsCreated == (if topic in old(topics) then 0 else 1)
        && jobs[id].entriesCreated == entries && jobs[id].centsSpent == cents
    {
      var topicCreated := EnsureTopic(topic);
      batches := batches + multiset{conv};
      processed := processed + {conv};
      extracted := extracted + multiset{conv};
      CompleteAndAudit(id, if topicCreated then 1 else 0, entries, cents);
    }

    method MarkSkippedNoTopic(id: JobId, conv: ConvId)
      modifies this
      ensures View() == SkipNoTopic(old(View()), id, conv)
      ensures Updatable(old(jobs), id) ==>
        jobs[id].status == Completed && jobs[id].topicsCreated == 0 && jobs[id].entriesCreated == 0 && jobs[id].centsSpent == 0
    {
      processed := processed + {conv};
      CompleteAndAudit(id, 0, 0, 0);
    }

    method RecordJobFailure(id: JobId, code: string)
      modifies this
      ensures View() == RecordFailure(old(View()), id, code)
    {
      var updated := MarkJobFailed(id, code);
      if updated {
        failed := failed + multiset{id};
      }
    }

    /** One sweep update; `rows` is what it returns. */
    method Sweep(stale: Job -> bool, code: string) returns (rows: set<(JobId, Month)>)
      modifies this`jobs
      ensures jobs == Swept(old(jobs), stale, code)
      ensures rows == Returned(old(jobs), stale)
    {
      rows := set j | j in jobs && stale(jobs[j]) :: (j, jobs[j].periodStart);
      jobs := map j | j in jobs :: if stale(jobs[j]) then jobs[j].(status := Failed, errorCode := Some(code)) else jobs[j];
    }
  }

  // ------------------------------------------------------------------
  // What every statement keeps
  // ------------------------------------------------------------------

  /** A completed job's conversation is processed; the `completed` audit row is there exactly when the status is. */
  ghost predicate JobsSound(db: Db) {
    && (forall j :: j in db.jobs && db.jobs[j].status == Completed ==> db.jobs[j].key.conv in db.processed)
    && (forall j :: db.completed[j] == if j in db.jobs && db.jobs[j].status == Completed then 1 else 0)
  }

  ghost predicate BatchesSound(db: Db) {
    forall c :: db.batches[c] <= 1 && (db.batches[c] == 1 ==> c in db.processed) && db.extracted[c] == db.batches[c]
  }

  ghost predicate Sound(db: Db) { ActiveUnique(db.jobs) && JobsSound(db) && BatchesSound(db) }

  /** No row disappears or changes its key or period, and a completed row is never touched. */
  ghost predicate RowsEvolve(before: Jobs, after: Jobs) {
    forall j :: j in before ==>
      && j in after && after[j].key == before[j].key && after[j].periodStart == before[j].periodStart
      && (before[j].status == Completed ==> after[j] == before[j])
  }

  lemma InsertKeepsSound(db: Db, id: JobId, key: Key, period: Month, now: Time)
    requires Sound(db) && id !in db.jobs && InsertPending(db.jobs, id, key, period, now).Some?
    ensures Sound(db.(jobs := InsertPending(db.jobs, id, key, period, now).value))
    ensures RowsEvolve(db.jobs, InsertPending(db.jobs, id, key, period, now).value)
  {
    var jobs, after := db.jobs, InsertPending(db.jobs, id, key, period, now).value;
    forall i, j | i in after && j in after && i != j && Active(after[i]) && Active(after[j]) ensures after[i].key != after[j].key {
      if i == id {
        assert j in jobs && Active(jobs[j]);
      } else if j == id {
        assert i in jobs && Active(jobs[i]);
      }
    }
  }

  /** Also when a failed row is revived. */
  lemma MarkRunningKeepsSound(db: Db, id: JobId, now: Time)
    requires Sound(db) && MarkRunning(db.jobs, id, now).Some?
    ensures Sound(db.(jobs := MarkRunning(db.jobs, id, now).value))
    ensures RowsEvolve(db.jobs, MarkRunning(db.jobs, id, now).value)
  {
    var jobs, after := db.jobs, MarkRunning(db.jobs, id, now).value;
    forall i, j | i in after && j in after && i != j && Active(after[i]) && Active(after[j]) ensures after[i].key != after[j].key {
      if i == id && after != jobs {
        assert j in jobs && Active(jobs[j]);
      } else if j == id && after != jobs {
        assert i in jobs && Active(jobs[i]);
      }
    }
  }

  /** Starting a job fails exactly when it had failed and its key has since been taken by another active job. */
  lemma MarkRunningFailsExactly(jobs: Jobs, id: JobId, now: Time)
    requires ActiveUnique(jobs) && id in jobs
    ensures MarkRunning(jobs, id, now).None? <==> jobs[id].status == Failed && Conflicts(jobs, id, jobs[id].key)
  {
    if Active(jobs[id]) {
      forall j | j in jobs && j != id && Active(jobs[j]) ensures jobs[j].key != jobs[id].key {
      }
    }
  }

  /** The job must be the conversation's own, and the conversation not yet processed: the checks of Phase 3. */
  lemma PersistKeepsSound(db: Db, id: JobId, conv: ConvId, topic: Topic, entries: nat, cents: nat)
    requires Sound(db) && conv !in db.processed
    requires id in db.jobs && db.jobs[id].key.conv == conv
    ensures Sound(Persist(db, id, conv, topic, entries, cents))
    ensures RowsEvolve(db.jobs, Persist(db, id, conv, topic, entries, cents).jobs)
  {
    var after := Persist(db, id, conv, topic, entries, cents);
    forall c ensures after.batches[c] <= 1 && (after.batches[c] == 1 ==> c in after.processed) && after.extracted[c] == after.batches[c] {
      assert db.batches[c] <= 1 && (db.batches[c] == 1 ==> c in db.processed) && db.extracted[c] == db.batches[c];
    }
  }

  lemma SkipKeepsSound(db: Db, id: JobId, conv: ConvId)
    requires Sound(db)
    requires id in db.jobs && db.jobs[id].key.conv == conv
    ensures Sound(SkipNoTopic(db, id, conv))
    ensures RowsEvolve(db.jobs, SkipNoTopic(db, id, conv).jobs)
  {
    var after := SkipNoTopic(db, id, conv);
    assert forall c :: db.batches[c] <= 1 && (db.batches[c] == 1 ==> c in db.processed);
  }

  lemma FailureKeepsSound(db: Db, id: JobId, code: string)
    requires Sound(db)
    ensures Sound(RecordFailure(db, id, code))
    ensures RowsEvolve(db.jobs, RecordFailure(db, id, code).jobs)
  {
  }

  /** The sweeps touch only rows that are active. */
  lemma SweepKeepsSound(db: Db, stale: Job -> bool, code: string)
    requires Sound(db) && forall j: Job :: stale(j) ==> Active(j)
    ensures Sound(db.(jobs := Swept(db.jobs, stale, code)))
    ensures RowsEvolve(db.jobs, Swept(db.jobs, stale, code))
  {
    var after := Swept(db.jobs, stale, code);
    forall j | j in after ensures j in db.jobs && after[j].key == db.jobs[j].key && (Active(after[j]) ==> Active(db.jobs[j])) {
    }
  }
}
