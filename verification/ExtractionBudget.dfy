/** Where the ledger's entries go: every entry of a pre-charge is in one bucket unless one precise failure happens. */
module ExtractionBudget {
  import opened Prelude
  import opened ExtractionJobs
  import opened ExtractionRuns

  // ------------------------------------------------------------------
  // The right bucket
  // ------------------------------------------------------------------

  /** Everything booked for this pre-charge is in the bucket it was debited from. */
  predicate Routed(book: Book, id: JobId) {
    id in book ==> forall k :: 0 <= k < |book[id]| ==> book[id][k].bucket == book[id][0].bucket
  }

  /** The one way out of the right bucket: the refund of a worker whose Phase 1 failed after the row's period was
      read, and which had started in another month than the row's. */
  predicate Misroutes(s: State, step: Step, id: JobId)
    requires Enabled(s, step)
  {
    && step.RefundFailure? && step.ok
    && var w := s.workers[step.worker];
       w.job == id && w.pc.known && !w.pc.loaded && id in s.db.jobs && w.startMonth != s.db.jobs[id].periodStart
  }

  ghost predicate EverMisroutes(s: State, steps: seq<Step>, id: JobId)
    requires Runs(s, steps)
    decreases |steps|
  {
    steps != [] && (Misroutes(s, steps[0], id) || EverMisroutes(Next(s, steps[0]), steps[1..], id))
  }

  predicate DebitedIn(book: Book, id: JobId, m: Month) { id in book && book[id] != [] && book[id][0].bucket == m }

  predicate PcAims(pc: WorkerPc, startMonth: Month, period: Month) {
    match pc
    case Loaded(b) => b == period
    case Untopical(b) => b == period
    case Extracted(b, _, _) => b == period
    case SkipMarked(b) => b == period
    case Failing(b, known, loaded) => (loaded ==> known && b == period) && (!loaded ==> b == startMonth)
    case _ => true
  }

  predicate WorkerAims(s: State, w: nat)
    requires w < |s.workers|
  {
    var worker := s.workers[w];
    worker.job in s.db.jobs && PcAims(worker.pc, worker.startMonth, s.db.jobs[worker.job].periodStart)
  }

  predicate IngestAims(s: State, i: nat)
    requires i < |s.ingests|
  {
    var g := s.ingests[i];
    g.pc.Charged? || g.pc.Refused? ==> DebitedIn(s.book, g.pc.id, g.period)
  }

  ghost predicate RowsAim(s: State) {
    && (forall j :: j in s.db.jobs ==> DebitedIn(s.book, j, s.db.jobs[j].periodStart))
    && (forall id :: id in s.book ==> s.book[id] != [])
    && (forall j, m :: (j, m) in s.owed ==> j in s.db.jobs && m == s.db.jobs[j].periodStart)
  }

  ghost predicate Aims(s: State) {
    && RowsAim(s)
    && (forall w :: 0 <= w < |s.workers| ==> WorkerAims(s, w))
    && (forall i :: 0 <= i < |s.ingests| ==> IngestAims(s, i))
  }

  lemma PostingsKeepDebits(book: Book, posting: Option<(JobId, Entry)>)
    ensures forall id, m :: DebitedIn(book, id, m) ==> DebitedIn(Posted(book, posting), id, m)
    ensures (forall id :: id in book ==> book[id] != []) ==> forall id :: id in Posted(book, posting) ==> Posted(book, posting)[id] != []
  {
  }

  lemma MoveKeepsAim(s: State, step: Step)
    requires Enabled(s, step) && WorkerMoves(step) && WorkerAims(s, step.worker)
    ensures var w := s.workers[step.worker]; PcAims(WorkerPcAfter(s, step), w.startMonth, s.db.jobs[w.job].periodStart)
  {
  }

  lemma NextKeepsWorkerAims(s: State, step: Step, w: nat)
    requires Enabled(s, step) && w < |Next(s, step).workers|
    requires RowsEvolve(s.db.jobs, DbAfter(s, step).jobs)
    requires w < |s.workers| ==> WorkerAims(s, w)
    ensures WorkerAims(Next(s, step), w)
  {
    var worker1 := Next(s, step).workers[w];
    if WorkerMoves(step) && step.worker == w {
      MoveKeepsAim(s, step);
    } else {
      assert w < |s.workers| ==> worker1 == s.workers[w];
    }
    assert worker1.job in s.db.jobs && DbAfter(s, step).jobs[worker1.job].periodStart == s.db.jobs[worker1.job].periodStart;
  }

  lemma NextKeepsIngestAims(s: State, step: Step, i: nat)
    requires Enabled(s, step) && i < |Next(s, step).ingests|
    requires i < |s.ingests| ==> IngestAims(s, i)
    ensures IngestAims(Next(s, step), i)
  {
    PostingsKeepDebits(s.book, Posting(s, step));
  }

  lemma NextKeepsRowsAim(s: State, step: Step)
    requires Safe(s) && Aims(s) && Enabled(s, step)
    ensures RowsAim(Next(s, step))
  {
    PostingsKeepDebits(s.book, Posting(s, step));
    NextKeepsDb(s, step);
    if step.Insert? {
      assert IngestAims(s, step.ingest);
    } else {
      NoNewRows(s, step);
    }
    OnlyOwesRows(s, step);
  }

  lemma NoNewRows(s: State, step: Step)
    requires Enabled(s, step) && !step.Insert?
    ensures DbAfter(s, step).jobs.Keys == s.db.jobs.Keys
  {
  }

  lemma OnlyOwesRows(s: State, step: Step)
    requires Enabled(s, step)
    ensures forall j, m :: (j, m) in OwedAfter(s, step) && (j, m) !in s.owed ==> j in s.db.jobs && m == s.db.jobs[j].periodStart
  {
  }

  lemma NextKeepsAims(s: State, step: Step)
    requires Safe(s) && Aims(s) && Enabled(s, step)
    ensures Aims(Next(s, step))
  {
    NextKeepsRowsAim(s, step);
    NextKeepsDb(s, step);
    var s1 := Next(s, step);
    forall w | 0 <= w < |s1.workers| ensures WorkerAims(s1, w) {
      NextKeepsWorkerAims(s, step, w);
    }
    forall i | 0 <= i < |s1.ingests| ensures IngestAims(s1, i) {
      NextKeepsIngestAims(s, step, i);
    }
  }

  /** An entry goes astray exactly at a misrouting step. */
  lemma PostingAims(s: State, step: Step)
    requires Safe(s) && Aims(s) && Enabled(s, step)
    requires Posting(s, step).Some? && Posting(s, step).value.0 in s.book
    ensures var (id, e) := Posting(s, step).value; e.bucket == s.book[id][0].bucket <==> !Misroutes(s, step, id)
  {
    if WorkerMoves(step) {
      assert WorkerAims(s, step.worker);
    } else if step.RefundIngest? {
      assert IngestAims(s, step.ingest);
    }
  }

  lemma PostRoutes(book: Book, id: JobId, e: Entry)
    requires id in book && book[id] != []
    ensures Routed(Posted(book, Some((id, e))), id) <==> Routed(book, id) && e.bucket == book[id][0].bucket
  {
    var was, now := book[id], Posted(book, Some((id, e)))[id];
    assert now[|was|] == e;
    forall k | 0 <= k < |was| ensures now[k] == was[k] {
    }
  }

  lemma MisroutesPosts(s: State, step: Step, id: JobId)
    requires Aims(s) && Enabled(s, step) && Misroutes(s, step, id)
    ensures Posting(s, step).Some? && Posting(s, step).value.0 == id && id in s.book
  {
    assert DebitedIn(s.book, id, s.db.jobs[id].periodStart);
  }

  lemma NotPostedRoutes(book: Book, posting: Option<(JobId, Entry)>, id: JobId)
    requires posting.None? || posting.value.0 != id || id !in book
    ensures Routed(Posted(book, posting), id) <==> Routed(book, id)
  {
  }

  lemma NextRoutes(s: State, step: Step, id: JobId)
    requires Safe(s) && Aims(s) && Enabled(s, step)
    ensures Routed(Next(s, step).book, id) <==> Routed(s.book, id) && !Misroutes(s, step, id)
  {
    var posting := Posting(s, step);
    if posting.Some? && posting.value.0 == id && id in s.book {
      PostingAims(s, step);
      PostRoutes(s.book, id, posting.value.1);
    } else {
      NotPostedRoutes(s.book, posting, id);
      if Misroutes(s, step, id) {
        MisroutesPosts(s, step, id);
      }
    }
  }

  lemma {:induction false} RunsRoute(s: State, steps: seq<Step>, id: JobId)
    requires Safe(s) && Aims(s) && Runs(s, steps)
    ensures Aims(After(s, steps))
    ensures Routed(After(s, steps).book, id) <==> Routed(s.book, id) && !EverMisroutes(s, steps, id)
    decreases |steps|
  {
    if steps != [] {
      NextRoutes(s, steps[0], id);
      NextKeepsAims(s, steps[0]);
      NextKeepsSafe(s, steps[0]);
      RunsRoute(Next(s, steps[0]), steps[1..], id);
    }
  }

  /** Every entry made for a job row is in the bucket of the row's stored period exactly when no refund for it
      follows a Phase 1 failure of a worker that started in another month. */
  lemma RightBucketExactly(now: Time, month: Month, steps: seq<Step>, j: JobId)
    requires Runs(Initial(now, month), steps)
    requires j in After(Initial(now, month), steps).db.jobs
    ensures var s := After(Initial(now, month), steps);
      && j in s.book
      && ((forall e :: e in s.book[j] ==> e.bucket == s.db.jobs[j].periodStart) <==> !EverMisroutes(Initial(now, month), steps, j))
  {
    RunsRoute(Initial(now, month), steps, j);
    var s := After(Initial(now, month), steps);
    assert DebitedIn(s.book, j, s.db.jobs[j].periodStart);
    if Routed(s.book, j) {
      assert forall e :: e in s.book[j] ==> e.bucket == s.db.jobs[j].periodStart;
    } else {
      var k :| 0 <= k < |s.book[j]| && s.book[j][k].bucket != s.book[j][0].bucket;
      assert s.book[j][k] in s.book[j];
    }
  }
}
